/** The worklist of internal/repository/plugin/dependency_suspension.go:161-192 as it runs:
    the set of listed plugins shrinks while it is being walked. */
module SuspensionCascade {
  import FiniteSets
  import opened Suspension

  class Catalog {
    const graph: Graph
    var rows: map<Id, Row>
    var markers: set<(Id, Id)>

    constructor (graph: Graph, rows: map<Id, Row>, markers: set<(Id, Id)>)
      ensures this.graph == graph && this.rows == rows && this.markers == markers
    {
      this.graph, this.rows, this.markers := graph, rows, markers;
    }

    /** internal/repository/plugin/dependency_suspension.go:11-19 */
    method SuspendDependency(id: Id, source: Id)
      requires id in rows
      modifies this
      ensures markers == old(markers) + {(id, source)}
      ensures rows == if old(rows)[id].listing == Published then old(rows)[id := old(rows)[id].(listing := Delisted)] else old(rows)
    {
      markers := markers + {(id, source)};
      if rows[id].listing == Published {
        rows := rows[id := rows[id].(listing := Delisted)];
      }
    }

    /** internal/repository/plugin/review.go:998-1013 */
    method DemoteEmbeddedChildren(top: Id, space: string)
      modifies this`rows
      ensures rows.Keys == old(rows).Keys
      ensures forall p :: p in rows ==>
                rows[p] == if IsChild(graph, top, p) && Demotable(old(rows)[p], space) && old(rows)[p].listing == Published
                           then old(rows)[p].(listing := Delisted) else old(rows)[p]
    {
      if top !in graph.children {
        return;
      }
      var ids := graph.children[top];
      for n := 0 to |ids|
        invariant rows.Keys == old(rows).Keys
        invariant forall p :: p in rows ==>
                    rows[p] == if p in ids[..n] && Demotable(old(rows)[p], space) && old(rows)[p].listing == Published
                               then old(rows)[p].(listing := Delisted) else old(rows)[p]
      {
        assert ids[..n + 1] == ids[..n] + [ids[n]];
        if ids[n] in rows && Demotable(rows[ids[n]], space) && rows[ids[n]].listing == Published {
          rows := rows[ids[n] := rows[ids[n]].(listing := Delisted)];
        }
      }
      assert ids[..|ids|] == ids;
    }

    /** Takes one source down with the children embedded in it. */
    method TakeDown(before: map<Id, Row>, space: string, source: Id, cause: Id, ghost suspended: set<Id>)
      requires source in before && After(before, graph, space, suspended, rows)
      modifies this
      ensures After(before, graph, space, suspended + {source}, rows)
      ensures markers == old(markers) + {(source, cause)}
    {
      SuspendDependency(source, cause);
      assert rows.Keys == before.Keys;
      DemoteEmbeddedChildren(source, space);
      forall p | p in before
        ensures rows[p] == if Falls(before, graph, space, suspended + {source}, p) then before[p].(listing := Delisted) else before[p]
      {
        FallsStep(before, graph, space, suspended, source, p);
      }
    }

    /** A source met for the first time is suspended with `id` as its cause. */
    method Meet(before: map<Id, Row>, space: string, target: Id, id: Id, source: Id, ghost seen: set<Id>,
                ghost log: seq<Entry>, ghost log': seq<Entry>, ghost ids: set<Id>, ghost done: set<Id>, ghost pending: set<Id>, ghost marked: set<(Id, Id)>)
      requires Walked(before, graph, space, target, log', rows, seen) && Queried(before, graph, space, target, log, ids, id)
      requires log <= log' && SameCause(log'[|log|..], id)
      requires source in ids && source !in seen && id in seen
      requires AllClear(rows, graph, space, target, done) && LeftOver(rows, graph, space, target, id, pending + {source})
      requires Marked(marked, markers, log, log')
      modifies this
      ensures Walked(before, graph, space, target, log' + [Entry(source, id)], rows, seen + {source})
      ensures AllClear(rows, graph, space, target, done) && LeftOver(rows, graph, space, target, id, pending)
      ensures log <= log' + [Entry(source, id)] && SameCause((log' + [Entry(source, id)])[|log|..], id)
      ensures Marked(marked, markers, log, log' + [Entry(source, id)])
    {
      hide *;
      ghost var rows0 := rows;
      WalkStep(before, graph, space, target, log, log', rows, seen, ids, id, source);
      TakeDown(before, space, source, id, Suspended(log'));
      Shrink(before, graph, space, target, log', rows0, rows, source, done, id, pending);
      MarkedStep(marked, old(markers), log, log', Entry(source, id));
      WalkedNow(before, graph, space, target, log' + [Entry(source, id)], rows, seen + {source});
    }

    /** internal/repository/plugin/dependency_suspension.go:166-189, for one plugin taken
        from the queue. `seen` is the target and everything suspended so far. */
    method Visit(before: map<Id, Row>, space: string, target: Id, id: Id, seen: set<Id>, ghost log: seq<Entry>, ghost done: set<Id>)
      returns (status: Status, added: seq<Id>, seen': set<Id>, ghost log': seq<Entry>)
      requires Walked(before, graph, space, target, log, rows, seen) && id in seen
      requires AllClear(rows, graph, space, target, done)
      modifies this
      ensures Walked(before, graph, space, target, log', rows, seen')
      ensures status == Ok ==> AllClear(rows, graph, space, target, done + {id})
      ensures status == Ok ==> Sources(old(rows), graph, space, id) <= seen'
      ensures Marked(old(markers), markers, log, log')
      ensures Grown(seen, added, seen')
      ensures status == TooLarge ==> |AffectedSet(before, graph, space, target)| >= MAX_GRAPH_NODES
      ensures status == Ok && |seen| <= MAX_GRAPH_NODES + 1 ==> |seen'| <= MAX_GRAPH_NODES + 1
      ensures status != NotFound
    {
      hide *;
      added, seen', log', status := [], seen, log, Ok;
      NothingAdded(log, markers, seen);
      var pending := Sources(rows, graph, space, id);
      ghost var ids := pending;
      QueryIsAffected(before, graph, space, target, log, rows, seen, id);
      if |pending| > MAX_GRAPH_NODES {
        status := TooLarge;
        return;
      }
      while pending != {}
        invariant Walked(before, graph, space, target, log', rows, seen')
        invariant AllClear(rows, graph, space, target, done)
        invariant Queried(before, graph, space, target, log, ids, id) && pending <= ids
        invariant LeftOver(rows, graph, space, target, id, pending)
        invariant ids <= pending + seen'
        invariant log <= log' && SameCause(log'[|log|..], id)
        invariant Marked(old(markers), markers, log, log')
        invariant Grown(seen, added, seen') && id in seen'
        invariant |seen| <= MAX_GRAPH_NODES + 1 ==> |seen'| <= MAX_GRAPH_NODES + 1
        decreases |pending|
      {
        ghost var was := pending;
        var source :| source in pending;
        pending := pending - {source};
        assert pending + {source} == was;
        if source in seen' {
          LeftOverSeen(before, graph, space, target, log', rows, seen', id, pending, source);
        } else {
          StillAffected(before, graph, space, target, log, log', rows, seen', ids, id, source);
          if |seen'| > MAX_GRAPH_NODES {
            status := TooLarge;
            return;
          }
          if source !in rows || !Locatable(rows[source], space) {
            status := NotFound;
            return;
          }
          Meet(before, space, target, id, source, seen', log, log', ids, done, pending, old(markers));
          GrownStep(seen, added, seen', source);
          log' := log' + [Entry(source, id)];
          seen' := seen' + {source};
          added := added + [source];
        }
      }
      ClearNow(rows, graph, space, target, id, done);
    }

    /** internal/repository/plugin/dependency_suspension.go:161-192 */
    method SuspendDelistedDependents(space: string, target: Id) returns (status: Status, ghost log: seq<Entry>)
      modifies this
      ensures status == Ok ==> Outcome(old(rows), graph, space, target, log, rows)
      ensures status == Ok ==> |Suspended(log)| <= MAX_GRAPH_NODES
      ensures status == TooLarge ==> |AffectedSet(old(rows), graph, space, target)| >= MAX_GRAPH_NODES
      ensures status != NotFound
      ensures LogJustified(old(rows), graph, space, target, log) && After(old(rows), graph, space, Suspended(log), rows)
      ensures markers == old(markers) + Pairs(log)
    {
      hide *;
      var before := rows;
      var queue, seen := [target], {target};
      ghost var done: set<Id> := {};
      log, status := [], Ok;
      Begin(before, graph, space, target, markers);
      while queue != []
        invariant Walked(before, graph, space, target, log, rows, seen)
        invariant AllClear(rows, graph, space, target, done)
        invariant QueueHolds(seen, done, queue) && |seen| <= MAX_GRAPH_NODES + 1
        invariant (queue == [target] && rows == before) || Sources(before, graph, space, target) <= seen
        invariant Marked(old(markers), markers, [], log) && status == Ok
        decreases Unseen(before, target, seen), |queue|
      {
        var id := queue[0];
        QueueHead(seen, done, queue);
        ghost var log0, markers0, seen0 := log, markers, seen;
        var added;
        status, added, seen, log := Visit(before, space, target, id, seen, log, done);
        MarkedTwice(old(markers), markers0, markers, log0, log);
        WalkedParts(before, graph, space, target, log, rows, seen);
        LogMarkers(old(markers), markers, log);
        if status != Ok {
          return;
        }
        QueueTail(seen0, done, queue, added, seen);
        StillSeen(before, graph, space, target, seen0, added, seen);
        UnseenFalls(before, graph, space, target, log, rows, seen0, added, seen);
        done := done + {id};
        queue := queue[1..] + added;
      }
      Finish(before, graph, space, target, log, rows, seen, done);
      WalkedParts(before, graph, space, target, log, rows, seen);
      LogMarkers(old(markers), markers, log);
    }
  }

  /** What has been seen is done or waits in the queue. */
  ghost predicate QueueHolds(seen: set<Id>, done: set<Id>, queue: seq<Id>) {
    seen == done + FiniteSets.Elements(queue)
  }

  ghost function Unseen(before: map<Id, Row>, target: Id, seen: set<Id>): nat {
    |before.Keys + {target} - seen|
  }

  lemma Begin(before: map<Id, Row>, g: Graph, space: string, target: Id, markers: set<(Id, Id)>)
    ensures Walked(before, g, space, target, [], before, {target})
    ensures AllClear(before, g, space, target, {}) && QueueHolds({target}, {}, [target])
    ensures Marked(markers, markers, [], []) && |{target}| <= MAX_GRAPH_NODES + 1
  {
    assert Suspended([]) == {};
  }

  lemma QueueHead(seen: set<Id>, done: set<Id>, queue: seq<Id>)
    requires QueueHolds(seen, done, queue) && queue != []
    ensures queue[0] in seen
  {
  }

  lemma StillSeen(before: map<Id, Row>, g: Graph, space: string, target: Id, seen: set<Id>, added: seq<Id>, seen': set<Id>)
    requires Grown(seen, added, seen')
    ensures Sources(before, g, space, target) <= seen ==> Sources(before, g, space, target) <= seen'
  {
  }

  lemma QueueTail(seen: set<Id>, done: set<Id>, queue: seq<Id>, added: seq<Id>, seen': set<Id>)
    requires QueueHolds(seen, done, queue) && queue != [] && Grown(seen, added, seen')
    ensures QueueHolds(seen', done + {queue[0]}, queue[1..] + added)
    ensures added == [] ==> |queue[1..] + added| < |queue|
  {
    assert FiniteSets.Elements(queue) == {queue[0]} + FiniteSets.Elements(queue[1..]);
    assert FiniteSets.Elements(queue[1..] + added) == FiniteSets.Elements(queue[1..]) + FiniteSets.Elements(added);
  }

  lemma UnseenFalls(before: map<Id, Row>, g: Graph, space: string, target: Id, log: seq<Entry>, rows: map<Id, Row>, seen: set<Id>, added: seq<Id>, seen': set<Id>)
    requires Grown(seen, added, seen') && Walked(before, g, space, target, log, rows, seen')
    ensures added == [] ==> Unseen(before, target, seen') == Unseen(before, target, seen)
    ensures added != [] ==> Unseen(before, target, seen') < Unseen(before, target, seen)
  {
    hide After, LogJustified, Suspended;
    var all := before.Keys + {target};
    if added == [] {
      assert seen' == seen;
    } else {
      var x :| x in seen' && x !in seen;
      if x != target {
        SuspendedIsRow(before, g, space, target, log, x);
      }
      FiniteSets.Subset(all - seen', all - seen - {x});
    }
  }

  lemma MarkedTwice(m0: set<(Id, Id)>, m1: set<(Id, Id)>, m2: set<(Id, Id)>, log: seq<Entry>, log': seq<Entry>)
    requires Marked(m0, m1, [], log) && Marked(m1, m2, log, log')
    ensures Marked(m0, m2, [], log')
  {
    var part := log'[|log|..];
    assert log' == log + part && log[0..] == log && log'[0..] == log';
    forall x
      ensures x in Pairs(log') <==> x in Pairs(log) || x in Pairs(part)
    {
      if x in Pairs(log) {
        var e :| e in log && x == (e.source, e.cause);
        assert e in log';
      }
      if x in Pairs(part) {
        var e :| e in part && x == (e.source, e.cause);
        assert e in log';
      }
    }
  }

  lemma LogMarkers(before: set<(Id, Id)>, markers: set<(Id, Id)>, log: seq<Entry>)
    requires Marked(before, markers, [], log)
    ensures markers == before + Pairs(log)
  {
    assert log[0..] == log;
  }

  lemma WalkedParts(before: map<Id, Row>, g: Graph, space: string, target: Id, log: seq<Entry>, rows: map<Id, Row>, seen: set<Id>)
    requires Walked(before, g, space, target, log, rows, seen)
    ensures LogJustified(before, g, space, target, log) && After(before, g, space, Suspended(log), rows)
  {
  }

  lemma Finish(before: map<Id, Row>, g: Graph, space: string, target: Id, log: seq<Entry>, rows: map<Id, Row>, seen: set<Id>, done: set<Id>)
    requires Walked(before, g, space, target, log, rows, seen) && AllClear(rows, g, space, target, done) && QueueHolds(seen, done, [])
    requires |seen| <= MAX_GRAPH_NODES + 1 && Sources(before, g, space, target) <= seen
    ensures Outcome(before, g, space, target, log, rows) && |Suspended(log)| <= MAX_GRAPH_NODES
  {
    hide Clear, After, Suspended;
    if target in Suspended(log) {
      SuspendedIsRow(before, g, space, target, log, target);
    }
    assert |seen| == |Suspended(log)| + 1;
  }

  /** getReviewedPluginForUpdate finds it. */
  predicate Locatable(r: Row, space: string) {
    r.space == space && r.active && !r.deleted
  }

  /** The suspension markers of a stretch of the log. */
  ghost function Pairs(log: seq<Entry>): set<(Id, Id)> {
    set e | e in log :: (e.source, e.cause)
  }

  ghost function AffectedSet(rows: map<Id, Row>, g: Graph, space: string, target: Id): set<Id> {
    set p | p in rows && Affected(rows, g, space, target, p)
  }

  ghost predicate AllClear(rows: map<Id, Row>, g: Graph, space: string, target: Id, done: set<Id>) {
    forall id :: id in done ==> Clear(rows, g, space, target, id)
  }

  ghost predicate Walked(before: map<Id, Row>, g: Graph, space: string, target: Id, log: seq<Entry>, rows: map<Id, Row>, seen: set<Id>) {
    && LogJustified(before, g, space, target, log)
    && After(before, g, space, Suspended(log), rows)
    && seen == Suspended(log) + {target}
  }

  /** What one lookup returned: listed then, so untouched by everything in the log then. */
  ghost predicate Queried(before: map<Id, Row>, g: Graph, space: string, target: Id, log: seq<Entry>, ids: set<Id>, id: Id) {
    forall p :: p in ids ==> p in Sources(before, g, space, id) && !Falls(before, g, space, Suspended(log), p)
  }

  /** Who still uses `id` is still pending. */
  ghost predicate LeftOver(rows: map<Id, Row>, g: Graph, space: string, target: Id, id: Id, pending: set<Id>) {
    Sources(rows, g, space, id) <= pending + {target}
  }

  ghost predicate SameCause(log: seq<Entry>, id: Id) {
    forall e :: e in log ==> e.cause == id
  }

  /** The markers written are those of the log. */
  ghost predicate Marked(before: set<(Id, Id)>, markers: set<(Id, Id)>, log: seq<Entry>, log': seq<Entry>) {
    log <= log' && markers == before + Pairs(log'[|log|..])
  }

  /** What was added to the queue is what was newly seen. */
  ghost predicate Grown(seen: set<Id>, added: seq<Id>, seen': set<Id>) {
    seen' == seen + FiniteSets.Elements(added) && (added == [] || seen < seen')
  }

  lemma NothingAdded(log: seq<Entry>, markers: set<(Id, Id)>, seen: set<Id>)
    ensures Marked(markers, markers, log, log) && (forall id :: SameCause(log[|log|..], id)) && Grown(seen, [], seen)
  {
  }

  lemma GrownStep(seen: set<Id>, added: seq<Id>, seen': set<Id>, source: Id)
    requires Grown(seen, added, seen') && source !in seen'
    ensures Grown(seen, added + [source], seen' + {source})
    ensures |seen' + {source}| == |seen'| + 1
  {
    assert FiniteSets.Elements(added + [source]) == FiniteSets.Elements(added) + {source};
  }

  lemma MarkedStep(before: set<(Id, Id)>, markers: set<(Id, Id)>, log: seq<Entry>, log': seq<Entry>, entry: Entry)
    requires Marked(before, markers, log, log')
    ensures Marked(before, markers + {(entry.source, entry.cause)}, log, log' + [entry])
    ensures SameCause(log'[|log|..], entry.cause) ==> SameCause((log' + [entry])[|log|..], entry.cause)
  {
    hide Pairs;
    PairsStep(log, log', entry);
  }

  lemma PairsStep(log: seq<Entry>, log': seq<Entry>, entry: Entry)
    requires log <= log'
    ensures log <= log' + [entry]
    ensures Pairs((log' + [entry])[|log|..]) == Pairs(log'[|log|..]) + {(entry.source, entry.cause)}
    ensures SameCause(log'[|log|..], entry.cause) ==> SameCause((log' + [entry])[|log|..], entry.cause)
  {
    assert (log' + [entry])[|log|..] == log'[|log|..] + [entry];
    var l := log'[|log|..];
    forall x
      ensures x in Pairs(l + [entry]) <==> x in Pairs(l) || x == (entry.source, entry.cause)
    {
      if x in Pairs(l) {
        var e :| e in l && x == (e.source, e.cause);
        assert e in l + [entry];
      }
      assert entry in l + [entry];
    }
  }

  lemma SourcesWere(before: map<Id, Row>, g: Graph, space: string, suspended: set<Id>, rows: map<Id, Row>, id: Id)
    requires After(before, g, space, suspended, rows)
    ensures forall p :: p in Sources(rows, g, space, id) <==> p in Sources(before, g, space, id) && !Falls(before, g, space, suspended, p)
  {
  }

  lemma SeenIsAffected(before: map<Id, Row>, g: Graph, space: string, target: Id, log: seq<Entry>, rows: map<Id, Row>, seen: set<Id>, id: Id)
    requires Walked(before, g, space, target, log, rows, seen) && id in seen
    ensures id == target || Affected(before, g, space, target, id)
  {
    hide Affected, LogJustified, Suspended;
    if id != target {
      SuspendedIsAffected(before, g, space, target, log, id);
    }
  }

  lemma QueryIsAffected(before: map<Id, Row>, g: Graph, space: string, target: Id, log: seq<Entry>, rows: map<Id, Row>, seen: set<Id>, id: Id)
    requires Walked(before, g, space, target, log, rows, seen) && id in seen
    ensures var ids := Sources(rows, g, space, id);
            && Queried(before, g, space, target, log, ids, id)
            && LeftOver(rows, g, space, target, id, ids)
            && |ids| <= |AffectedSet(before, g, space, target)| + 1
  {
    hide Affected, LogJustified, Falls, Suspended, Sources;
    var ids := Sources(rows, g, space, id);
    SourcesWere(before, g, space, Suspended(log), rows, id);
    SeenIsAffected(before, g, space, target, log, rows, seen, id);
    var all := AffectedSet(before, g, space, target);
    forall p | p in ids
      ensures p in all + {target}
    {
      if p != target {
        AffectedStep(before, g, space, target, p, id);
        SourceIsRow(before, g, space, p, id);
      }
    }
    FiniteSets.Subset(ids, all + {target});
  }

  lemma SourceIsRow(rows: map<Id, Row>, g: Graph, space: string, p: Id, id: Id)
    requires p in Sources(rows, g, space, id)
    ensures p in rows && Eligible(rows[p], space) && (p, id) in g.uses
  {
  }

  /** A source met for the first time makes one more affected plugin. */
  lemma StillAffected(before: map<Id, Row>, g: Graph, space: string, target: Id, log: seq<Entry>, log': seq<Entry>, rows: map<Id, Row>, seen: set<Id>, ids: set<Id>, id: Id, source: Id)
    requires Walked(before, g, space, target, log', rows, seen) && Queried(before, g, space, target, log, ids, id)
    requires source in ids && source !in seen && id in seen
    ensures |seen| <= |AffectedSet(before, g, space, target)|
    ensures source in rows && Locatable(rows[source], space)
  {
    hide Affected, LogJustified, Suspended, Sources, Falls;
    SourceIsRow(before, g, space, source, id);
    SeenIsAffected(before, g, space, target, log', rows, seen, id);
    AffectedStep(before, g, space, target, source, id);
    var all := AffectedSet(before, g, space, target);
    forall p | p in seen - {target} + {source}
      ensures p in all
    {
      if p != source {
        SeenIsAffected(before, g, space, target, log', rows, seen, p);
        SuspendedIsRow(before, g, space, target, log', p);
      }
    }
    FiniteSets.Subset(seen - {target} + {source}, all);
    assert |seen - {target} + {source}| == |seen|;
  }

  lemma SuspendedIsRow(rows: map<Id, Row>, g: Graph, space: string, target: Id, log: seq<Entry>, p: Id)
    requires LogJustified(rows, g, space, target, log) && p in Suspended(log)
    ensures p in rows && rows[p].listing == Published && p != target
  {
    var i :| 0 <= i < |log| && log[i].source == p;
    assert Justified(rows, g, space, target, log, i);
  }

  lemma LeftOverSeen(before: map<Id, Row>, g: Graph, space: string, target: Id, log: seq<Entry>, rows: map<Id, Row>, seen: set<Id>, id: Id, pending: set<Id>, source: Id)
    requires Walked(before, g, space, target, log, rows, seen) && source in seen
    requires LeftOver(rows, g, space, target, id, pending + {source})
    ensures LeftOver(rows, g, space, target, id, pending)
  {
    hide LogJustified, Suspended;
    if source != target {
      SuspendedIsRow(before, g, space, target, log, source);
      assert Falls(before, g, space, Suspended(log), source);
    }
  }

  lemma SuspendedStep(log: seq<Entry>, entry: Entry)
    ensures Suspended(log + [entry]) == Suspended(log) + {entry.source}
  {
    forall p
      ensures p in Suspended(log + [entry]) <==> p in Suspended(log) || p == entry.source
    {
      if p in Suspended(log) {
        var e :| e in log && e.source == p;
        assert e in log + [entry];
      }
      assert entry in log + [entry];
    }
  }

  /** The new entry is justified; older ones stay so. */
  lemma WalkStep(before: map<Id, Row>, g: Graph, space: string, target: Id, log: seq<Entry>, log': seq<Entry>, rows: map<Id, Row>, seen: set<Id>, ids: set<Id>, id: Id, source: Id)
    requires Walked(before, g, space, target, log', rows, seen) && Queried(before, g, space, target, log, ids, id)
    requires log <= log' && SameCause(log'[|log|..], id)
    requires source in ids && source !in seen && id in seen
    ensures LogJustified(before, g, space, target, log' + [Entry(source, id)])
    ensures source in before && After(before, g, space, Suspended(log'), rows)
    ensures Suspended(log' + [Entry(source, id)]) + {target} == seen + {source}
    ensures Suspended(log' + [Entry(source, id)]) == Suspended(log') + {source}
  {
    hide After, Eligible, Demotable, IsChild;
    var entry := Entry(source, id);
    var all := log' + [entry];
    SuspendedStep(log', entry);
    SourceIsRow(before, g, space, source, id);
    forall i | 0 <= i < |log'|
      ensures Justified(before, g, space, target, all, i)
    {
      assert Justified(before, g, space, target, log', i);
      assert forall j :: 0 <= j <= i ==> all[j] == log'[j];
    }
    forall j | 0 <= j < |log'|
      ensures log'[j].source != source
      ensures log'[j].cause != id ==> !(IsChild(g, log'[j].source, source) && Demotable(before[source], space))
    {
      assert log'[j].source in Suspended(log');
      if log'[j].cause != id {
        NotLater(log, log', id, j);
        assert log[j].source in Suspended(log);
        NotFallen(before, g, space, Suspended(log), source, log[j].source);
      }
    }
    if id != target {
      assert id in Suspended(log');
      var j :| 0 <= j < |log'| && log'[j].source == id;
      assert all[j].source == id;
    }
    assert all[|log'|] == entry;
    assert Justified(before, g, space, target, all, |log'|);
  }

  lemma WalkedNow(before: map<Id, Row>, g: Graph, space: string, target: Id, log: seq<Entry>, rows: map<Id, Row>, seen: set<Id>)
    requires LogJustified(before, g, space, target, log) && After(before, g, space, Suspended(log), rows)
    requires Suspended(log) + {target} == seen
    ensures Walked(before, g, space, target, log, rows, seen)
  {
  }

  lemma NotLater(log: seq<Entry>, log': seq<Entry>, id: Id, j: nat)
    requires log <= log' && SameCause(log'[|log|..], id) && j < |log'| && log'[j].cause != id
    ensures j < |log| && log[j] == log'[j]
  {
  }

  lemma NotFallen(rows: map<Id, Row>, g: Graph, space: string, suspended: set<Id>, p: Id, s: Id)
    requires p in rows && Eligible(rows[p], space) && !Falls(rows, g, space, suspended, p) && s in suspended
    ensures !(IsChild(g, s, p) && Demotable(rows[p], space))
  {
  }

  /** Taking a source down only ever removes users. */
  lemma Shrink(before: map<Id, Row>, g: Graph, space: string, target: Id, log: seq<Entry>, rows0: map<Id, Row>, rows: map<Id, Row>, source: Id, done: set<Id>, id: Id, pending: set<Id>)
    requires After(before, g, space, Suspended(log), rows0)
    requires After(before, g, space, Suspended(log) + {source}, rows)
    requires source in before
    ensures AllClear(rows0, g, space, target, done) ==> AllClear(rows, g, space, target, done)
    ensures LeftOver(rows0, g, space, target, id, pending + {source}) ==> LeftOver(rows, g, space, target, id, pending)
  {
    hide After, Falls, Sources;
    forall y, p | p in Sources(rows, g, space, y)
      ensures p in Sources(rows0, g, space, y) && p != source
    {
      SourcesWere(before, g, space, Suspended(log), rows0, y);
      SourcesWere(before, g, space, Suspended(log) + {source}, rows, y);
      SourceIsRow(before, g, space, p, y);
      FallsStep(before, g, space, Suspended(log), source, p);
    }
  }

  lemma ClearNow(rows: map<Id, Row>, g: Graph, space: string, target: Id, id: Id, done: set<Id>)
    requires LeftOver(rows, g, space, target, id, {}) && AllClear(rows, g, space, target, done)
    ensures AllClear(rows, g, space, target, done + {id})
  {
  }

  lemma FallsStep(rows: map<Id, Row>, g: Graph, space: string, suspended: set<Id>, source: Id, p: Id)
    requires p in rows
    ensures Falls(rows, g, space, suspended + {source}, p) <==>
              || Falls(rows, g, space, suspended, p)
              || (rows[p].listing == Published && (p == source || (IsChild(g, source, p) && Demotable(rows[p], space))))
  {
    if s :| s in suspended && IsChild(g, s, p) {
      assert s in suspended + {source};
    }
  }
}
