/** Stopping a conversion after any committed prefix and resuming it any number of
    times never trips a check and ends where an uninterrupted run ends. */
module Resume {
  import opened Options
  import opened MigrationPlan
  import opened ApplySpec
  import opened ApplyConflict
  import opened ApplyInvariant
  import opened ApplyStep

  // -------------------------------------------------------------------- setup

  function Untargeted(rows: seq<Mapping>): set<Mapping> {
    set m | m in rows && m.target.None?
  }

  lemma UntargetedStep(front: seq<Mapping>, m: Mapping)
    ensures Untargeted(front + [m]) == Untargeted(front) + if m.target.None? then {m} else {}
  {
  }

  /** Among rows of the plan, a row whose key is present is itself present. */
  lemma KeyIsRow(p: Plan, present: set<Mapping>, n: nat)
    requires DistinctSources(p) && n < |p.mappings| && forall m :: m in present ==> m in p.mappings
    ensures KeyPresent(present, p.mappings[n]) ==> p.mappings[n] in present
  {
    if KeyPresent(present, p.mappings[n]) {
      var o :| o in present && o.source == p.mappings[n].source && o.target == p.mappings[n].target;
      var h :| 0 <= h < |p.mappings| && p.mappings[h] == o;
      assert h == n;
    }
  }

  /** Ignoring rows that are already there is adding them to the set. */
  lemma {:induction false} InsertIsUnion(p: Plan, n: nat, present: set<Mapping>)
    requires DistinctSources(p) && n <= |p.mappings| && forall m :: m in present ==> m in p.mappings
    ensures InsertUntargeted(p.mappings[..n], present) == present + Untargeted(p.mappings[..n])
    decreases n
  {
    hide KeyPresent, DistinctSources;
    if n > 0 {
      var rows, front := p.mappings[..n], p.mappings[..n - 1];
      assert rows[..n - 1] == front && rows == front + [p.mappings[n - 1]];
      InsertIsUnion(p, n - 1, present);
      UntargetedStep(front, p.mappings[n - 1]);
      KeyIsRow(p, present + Untargeted(front), n - 1);
    }
  }

  /** What setup, or a part of it, leaves. */
  lemma SetupIs(p: Plan, rows: nat, db: Database)
    requires Safe(p) && (db.run.None? || db.run == Some(p)) && forall m :: m in db.mappings ==> m in p.mappings
    ensures SetupUpTo(p, rows, db) ==
              Ok(db.(run := Some(p), mappings := db.mappings + Untargeted(p.mappings[..Min(rows, |p.mappings|)])))
  {
    hide WritersLast, DependenciesFirst, NodeComplete, TargetsPlanned;
    InsertIsUnion(p, Min(rows, |p.mappings|), db.mappings);
  }

  /** No node has been processed: setup has not begun or did not get beyond some mapping. */
  ghost predicate Started(p: Plan, db0: Database, db: Database) {
    db == db0 || exists rows: nat :: SetupUpTo(p, rows, db0) == Ok(db)
  }

  lemma StartedFacts(p: Plan, db0: Database, db: Database)
    requires Safe(p) && Captured(p, db0) && Started(p, db0, db)
    ensures Committed(p, db0, 0, db) && (db.run.None? || db.run == Some(p))
    ensures forall m :: m in db.mappings ==> m in p.mappings
    ensures db == db0.(run := db.run, mappings := db.mappings)
  {
    CapturedIsCommitted(p, db0);
    if db != db0 {
      var rows: nat :| SetupUpTo(p, rows, db0) == Ok(db);
      SetupIs(p, rows, db0);
    }
    SameRows(p, db0, db);
  }

  lemma SameRows(p: Plan, db0: Database, db: Database)
    requires Committed(p, db0, 0, db0) && db == db0.(run := db.run, mappings := db.mappings)
    requires forall m :: m in db.mappings ==> m in p.mappings && m.target.None?
    ensures Committed(p, db0, 0, db)
  {
    assert forall x :: OwnedBy(db, x) == OwnedBy(db0, x);
  }

  /** A setup that was interrupted is completed, or continued, by the next. */
  lemma SetupResumes(p: Plan, db0: Database, db: Database, rows: nat)
    requires Safe(p) && Captured(p, db0) && Started(p, db0, db)
    ensures Setup(p, db) == Setup(p, db0)
    ensures SetupUpTo(p, rows, db).Ok? && Started(p, db0, SetupUpTo(p, rows, db).value)
  {
    hide Safe, Committed, SetupUpTo;
    StartedFacts(p, db0, db);
    SetupIs(p, rows, db);
    SetupIs(p, |p.mappings|, db);
    SetupIs(p, |p.mappings|, db0);
    if db == db0 {
      assert SetupUpTo(p, rows, db0) == Ok(SetupUpTo(p, rows, db).value);
    } else {
      var before: nat :| SetupUpTo(p, before, db0) == Ok(db);
      SetupIs(p, before, db0);
      PrefixesNest(p.mappings, Min(before, |p.mappings|), Min(rows, |p.mappings|));
      PrefixesNest(p.mappings, Min(before, |p.mappings|), |p.mappings|);
      var more := if before <= rows then rows else before;
      SetupIs(p, more, db0);
      assert db.mappings == Untargeted(p.mappings[..Min(before, |p.mappings|)]);
      assert Min(more, |p.mappings|) == if Min(before, |p.mappings|) <= Min(rows, |p.mappings|) then Min(rows, |p.mappings|) else Min(before, |p.mappings|);
      var again, whole, once := SetupUpTo(p, rows, db).value, Setup(p, db).value, SetupUpTo(p, more, db0).value;
      assert again.mappings == once.mappings;
      assert whole.mappings == Setup(p, db0).value.mappings;
      assert again == db0.(run := Some(p), mappings := again.mappings) && whole == db0.(run := Some(p), mappings := whole.mappings);
      assert SetupUpTo(p, more, db0) == Ok(again);
    }
  }

  lemma PrefixesNest(rows: seq<Mapping>, a: nat, b: nat)
    requires a <= |rows| && b <= |rows|
    ensures Untargeted(rows[..a]) + Untargeted(rows[..b]) == Untargeted(rows[..if a <= b then b else a])
    ensures Untargeted(rows[..a]) <= Untargeted(rows[..|rows|])
  {
  }

  // ---------------------------------------------------------------- the nodes

  /** `db` is the captured database after setup and the first `k` transactions. */
  ghost predicate Reached(p: Plan, db0: Database, k: nat, db: Database) {
    && Committed(p, db0, k, db)
    && db.run == Some(p)
    && (forall m :: m in p.mappings && m.target.None? ==> m in db.mappings)
    && Setup(p, db0).Ok?
    && ApplyNodes(p, 0, k, Setup(p, db0).value) == Run(db, k, None)
  }

  lemma SetupReaches(p: Plan, db0: Database)
    requires Safe(p) && Captured(p, db0)
    ensures Setup(p, db0).Ok? && Reached(p, db0, 0, Setup(p, db0).value)
  {
    hide Safe, Committed, SetupUpTo, ApplyNode;
    SetupIs(p, |p.mappings|, db0);
    var db := Setup(p, db0).value;
    assert Started(p, db0, db);
    StartedFacts(p, db0, db);
    assert p.mappings[..|p.mappings|] == p.mappings;
  }

  /** Setup adds nothing once it has been completed. */
  lemma SetupIsDone(p: Plan, db0: Database, k: nat, db: Database, rows: nat)
    requires Safe(p) && Reached(p, db0, k, db)
    ensures SetupUpTo(p, rows, db) == Ok(db)
  {
    hide Safe, SetupUpTo, ApplyNodes, NeedsStand, ReceiptsStand, SourcesStand, CatalogStands, NodesStand;
    SetupIs(p, rows, db);
    assert db.mappings + Untargeted(p.mappings[..Min(rows, |p.mappings|)]) == db.mappings;
  }

  lemma {:induction false} ApplyNodesSplit(p: Plan, from: nat, mid: nat, stop: nat, db: Database)
    requires from <= mid <= stop <= |p.nodes|
    ensures var first := ApplyNodes(p, from, mid, db);
            ApplyNodes(p, from, stop, db) == if first.error.None? then ApplyNodes(p, mid, stop, first.db) else first
    ensures ApplyNodes(p, from, mid, db).error.None? ==> ApplyNodes(p, from, mid, db).done == mid
    decreases mid - from
  {
    hide ApplyNode;
    if from < mid {
      match ApplyNode(p, p.nodes[from], db)
      case Err(_) =>
      case Ok(next) => ApplyNodesSplit(p, from + 1, mid, stop, next);
    }
  }

  /** Going over nodes that already hold receipts changes nothing. */
  lemma {:induction false} RepeatedPrefix(p: Plan, db0: Database, k: nat, db: Database, from: nat, stop: nat)
    requires Safe(p) && Captured(p, db0) && Committed(p, db0, k, db)
    requires from <= stop <= k
    ensures ApplyNodes(p, from, stop, db) == Run(db, stop, None)
    decreases stop - from
  {
    hide ApplyNode, Safe, Captured, NeedsStand, ReceiptsStand, SourcesStand, CatalogStands, MappingsStand, NodesStand;
    if from < stop {
      RepeatIsNoOp(p, db0, k, db, from);
      RepeatedPrefix(p, db0, k, db, from + 1, stop);
    }
  }

  /** From a committed prefix the pending nodes commit one by one, up to the first conflict. */
  lemma {:induction false} PendingAdvance(p: Plan, db0: Database, k: nat, db: Database, stop: nat)
    requires Safe(p) && Captured(p, db0) && Reached(p, db0, k, db)
    requires k <= stop <= |p.nodes|
    ensures var r := ApplyNodes(p, k, stop, db);
            && k <= r.done <= stop
            && Reached(p, db0, r.done, r.db)
            && (r.error.Some? ==> r.done < stop && ConflictAt(p, db0, r.done))
            && (r.error.None? ==> r.done == stop)
    decreases stop - k
  {
    hide ApplyNode, Setup, Safe, Captured, Committed, ConflictAt;
    if k < stop {
      NextCommits(p, db0, k, db);
      match ApplyNode(p, p.nodes[k], db)
      case Err(_) =>
      case Ok(next) =>
        ApplyNodesSplit(p, 0, k, k + 1, Setup(p, db0).value);
        assert ApplyNodes(p, k, k + 1, db) == Run(next, k + 1, None);
        PendingAdvance(p, db0, k + 1, next, stop);
    }
  }

  /** From a committed prefix a further attempt does exactly the nodes that were still pending. */
  lemma AttemptFromReached(p: Plan, db0: Database, k: nat, db: Database, node: nat)
    requires Safe(p) && Captured(p, db0) && Reached(p, db0, k, db)
    ensures var s := Min(node, |p.nodes|);
            Attempt(p, AtNode(node), db) == if s <= k then Run(db, s, None) else ApplyNodes(p, k, s, db)
  {
    hide ApplyNode, Safe, Captured, Committed, SetupUpTo;
    SetupIsDone(p, db0, k, db, |p.mappings|);
    var s := Min(node, |p.nodes|);
    if s <= k {
      RepeatedPrefix(p, db0, k, db, 0, s);
    } else {
      ApplyNodesSplit(p, 0, k, s, db);
      RepeatedPrefix(p, db0, k, db, 0, k);
    }
  }

  /** Where interrupted attempts can leave the database. */
  ghost predicate OnTheWay(p: Plan, db0: Database, db: Database) {
    Started(p, db0, db) || exists k: nat :: Reached(p, db0, k, db)
  }

  /** From a started database an attempt does what it does from the captured one. */
  lemma AttemptFromStarted(p: Plan, db0: Database, db: Database, node: nat)
    requires Safe(p) && Captured(p, db0) && Started(p, db0, db)
    ensures Attempt(p, AtNode(node), db) == Attempt(p, AtNode(node), db0)
    ensures var r := Attempt(p, AtNode(node), db);
            && Reached(p, db0, r.done, r.db)
            && (r.error.Some? ==> r.done < Min(node, |p.nodes|) && ConflictAt(p, db0, r.done))
            && (r.error.None? ==> r.done == Min(node, |p.nodes|))
  {
    hide ApplyNode, Safe, Captured, Committed, SetupUpTo, ConflictAt, Started;
    SetupResumes(p, db0, db, 0);
    SetupReaches(p, db0);
    PendingAdvance(p, db0, 0, Setup(p, db0).value, Min(node, |p.nodes|));
  }

  lemma AttemptStays(p: Plan, db0: Database, db: Database, stop: Stop)
    requires Safe(p) && Captured(p, db0) && OnTheWay(p, db0, db)
    ensures OnTheWay(p, db0, Attempt(p, stop, db).db)
  {
    hide ApplyNode, Safe, Captured, Committed, SetupUpTo, ConflictAt, Started, Setup;
    if Started(p, db0, db) {
      match stop
      case AtStart =>
      case InSetup(rows) => SetupResumes(p, db0, db, rows);
      case AtNode(node) => AttemptFromStarted(p, db0, db, node);
    } else {
      var k: nat :| Reached(p, db0, k, db);
      match stop
      case AtStart =>
      case InSetup(rows) => SetupIsDone(p, db0, k, db, rows);
      case AtNode(node) =>
        AttemptFromReached(p, db0, k, db, node);
        if k < Min(node, |p.nodes|) {
          PendingAdvance(p, db0, k, db, Min(node, |p.nodes|));
        }
    }
  }

  lemma {:induction false} AttemptsStay(p: Plan, db0: Database, db: Database, stops: seq<Stop>)
    requires Safe(p) && Captured(p, db0) && OnTheWay(p, db0, db)
    ensures OnTheWay(p, db0, Attempts(p, stops, db))
    decreases |stops|
  {
    hide Attempt, Safe, Captured, OnTheWay;
    if stops != [] {
      AttemptStays(p, db0, db, stops[0]);
      AttemptsStay(p, db0, Attempt(p, stops[0], db).db, stops[1..]);
    }
  }

  // ---------------------------------------------------------- main theorems

  lemma ReachedFreeOfConflict(p: Plan, db0: Database, k: nat, db: Database)
    requires Reached(p, db0, k, db)
    ensures k <= |p.nodes| && forall i :: 0 <= i < k ==> !ConflictAt(p, db0, i)
  {
    hide ConflictAt, ApplyNodes, Setup, Catalog, ReceiptsStand, SourcesStand, CatalogStands, MappingsStand, NodesStand;
  }

  /** After any series of attempts, each interrupted anywhere, the preflight passes; and a
      further attempt is refused exactly when the captured data forbid one of its nodes,
      whatever the attempts before it have written. */
  lemma ResumeNeverTripsOnItself(p: Plan, db0: Database, stops: seq<Stop>, node: nat)
    requires Safe(p) && Captured(p, db0)
    ensures Preflight(p, Attempts(p, stops, db0))
    ensures Attempt(p, AtNode(node), Attempts(p, stops, db0)).error.Some? <==>
              exists k :: 0 <= k < Min(node, |p.nodes|) && ConflictAt(p, db0, k)
  {
    hide ApplyNode, Safe, Captured, Committed, Preflight, ConflictAt, Setup, Started, Attempt, Attempts;
    AttemptsStay(p, db0, db0, stops) by { StartHere(p, db0); }
    var db := Attempts(p, stops, db0);
    PreflightOnTheWay(p, db0, db);
    var r, s := Attempt(p, AtNode(node), db), Min(node, |p.nodes|);
    if Started(p, db0, db) {
      AttemptFromStarted(p, db0, db, node);
      ReachedFreeOfConflict(p, db0, r.done, r.db);
    } else {
      var k: nat :| Reached(p, db0, k, db);
      ReachedFreeOfConflict(p, db0, k, db);
      AttemptFromReached(p, db0, k, db, node);
      if k < s {
        PendingAdvance(p, db0, k, db, s);
        ReachedFreeOfConflict(p, db0, r.done, r.db);
      }
    }
  }

  lemma StartHere(p: Plan, db0: Database)
    ensures OnTheWay(p, db0, db0)
  {
  }

  lemma PreflightOnTheWay(p: Plan, db0: Database, db: Database)
    requires Safe(p) && Captured(p, db0) && OnTheWay(p, db0, db)
    ensures Preflight(p, db)
  {
    hide Safe, Captured, Committed, Preflight, Started;
    if Started(p, db0, db) {
      StartedFacts(p, db0, db);
      PreflightOnCommitted(p, db0, 0, db);
    } else {
      var k: nat :| Reached(p, db0, k, db);
      PreflightOnCommitted(p, db0, k, db);
    }
  }

  /** A refused run stops at the first node that the captured data forbid. */
  lemma RefusedAtFirstConflict(p: Plan, db0: Database)
    requires Safe(p) && Captured(p, db0)
    ensures var r := Attempt(p, AtNode(|p.nodes|), db0);
            r.error.Some? ==> r.done < |p.nodes| && ConflictAt(p, db0, r.done) && forall i :: 0 <= i < r.done ==> !ConflictAt(p, db0, i)
  {
    hide ApplyNode, Safe, Captured, Committed, ConflictAt, Setup, Attempt;
    var r := Attempt(p, AtNode(|p.nodes|), db0);
    AttemptFromStarted(p, db0, db0, |p.nodes|);
    ReachedFreeOfConflict(p, db0, r.done, r.db);
  }

  lemma PreflightOnCommitted(p: Plan, db0: Database, k: nat, db: Database)
    requires Safe(p) && Captured(p, db0) && Committed(p, db0, k, db)
    requires db.run.None? || db.run == Some(p)
    requires db.run.None? ==> k == 0
    ensures Preflight(p, db)
  {
    CatalogVerifies(p, db0, k, db);
    forall i | 0 <= i < |p.nodes|
      ensures if i < k then ReceiptVerifies(p, p.nodes[i], db) && p.nodes[i].id in db.receipts
              else SourcesVerify(p, p.nodes[i], db) && p.nodes[i].id !in db.receipts
    {
      if i >= k {
        PendingSourcesVerify(p, db0, k, db, i);
      }
    }
  }

  /** However often it was interrupted before, an attempt that is allowed to finish
      leaves the same database, the same count and the same refusal as one that never was. */
  lemma ResumeEndsTheSame(p: Plan, db0: Database, stops: seq<Stop>)
    requires Safe(p) && Captured(p, db0)
    ensures Attempt(p, AtNode(|p.nodes|), Attempts(p, stops, db0)) == Attempt(p, AtNode(|p.nodes|), db0)
  {
    hide ApplyNode, Safe, Captured, Committed, SetupUpTo, Started, Attempts, ConflictAt;
    AttemptsStay(p, db0, db0, stops) by { StartHere(p, db0); }
    var db := Attempts(p, stops, db0);
    if Started(p, db0, db) {
      AttemptFromStarted(p, db0, db, |p.nodes|);
    } else {
      var k: nat :| Reached(p, db0, k, db);
      AttemptFromReached(p, db0, k, db, |p.nodes|);
      ReachedFreeOfConflict(p, db0, k, db);
      ApplyNodesSplit(p, 0, k, |p.nodes|, Setup(p, db0).value);
      if k == |p.nodes| {
        assert ApplyNodes(p, k, |p.nodes|, db) == Run(db, |p.nodes|, None);
      }
    }
  }

  lemma MappingsComplete(p: Plan, db0: Database, db: Database)
    requires Safe(p) && Reached(p, db0, |p.nodes|, db)
    ensures db.mappings == set m | m in p.mappings
  {
    hide ApplyNodes, Setup, NeedsStand, ReceiptsStand, SourcesStand, CatalogStands, NodesStand, WritersLast, DependenciesFirst;
    forall m | m in p.mappings
      ensures m in db.mappings
    {
      if m.target.Some? {
        assert Planned(p, m.target.value);
      }
    }
  }

  lemma AllCommittedVerifies(p: Plan, db0: Database, db: Database)
    requires Safe(p) && Reached(p, db0, |p.nodes|, db)
    ensures Verifies(p, db) && AllConverted(p, db)
  {
    hide ApplyNodes, Setup, StateOf, Safe, NeedsStand, SourcesStand, CatalogStands, MappingsStand;
    CatalogVerifies(p, db0, |p.nodes|, db);
    MappingsComplete(p, db0, db);
  }

  /** The rows of every planned node are the planned ones. */
  ghost predicate AllConverted(p: Plan, db: Database) {
    forall k :: 0 <= k < |p.nodes| ==> NodeConverted(p.nodes[k], RowOf(db, p.nodes[k].id), OwnedBy(db, p.nodes[k].id))
  }

  /** A run ends with every node converted and every final check satisfied exactly when the
      captured data forbid no node. */
  lemma CompleteRunVerifies(p: Plan, db0: Database)
    requires Safe(p) && Captured(p, db0)
    ensures var r := Attempt(p, AtNode(|p.nodes|), db0);
            r.error.None? ==> r.done == |p.nodes| && Verifies(p, r.db) && AllConverted(p, r.db)
    ensures Attempt(p, AtNode(|p.nodes|), db0).error.None? <==> forall k :: 0 <= k < |p.nodes| ==> !ConflictAt(p, db0, k)
  {
    hide ApplyNode, Safe, Captured, Committed, Verifies, ConflictAt, Setup, Attempt, AllConverted;
    var r := Attempt(p, AtNode(|p.nodes|), db0);
    AttemptFromStarted(p, db0, db0, |p.nodes|);
    ReachedFreeOfConflict(p, db0, r.done, r.db);
    if r.error.None? {
      AllCommittedVerifies(p, db0, r.db);
    }
  }

  /** However the attempts on `db0` are interrupted, the next one passes its preflight, and a
      full attempt then ends as if there had been no other: refused if the captured data
      forbid some node, and otherwise with every node converted and verified. */
  ghost predicate Resumable(p: Plan, db0: Database) {
    var whole := Attempt(p, AtNode(|p.nodes|), db0);
    && (forall stops :: Preflight(p, Attempts(p, stops, db0)) && Attempt(p, AtNode(|p.nodes|), Attempts(p, stops, db0)) == whole)
    && (whole.error.None? <==> forall k :: 0 <= k < |p.nodes| ==> !ConflictAt(p, db0, k))
    && (whole.error.None? ==> Verifies(p, whole.db) && AllConverted(p, whole.db))
  }

  lemma SafeIsResumable(p: Plan, db0: Database)
    requires Safe(p) && Captured(p, db0)
    ensures Resumable(p, db0)
  {
    hide Safe, Captured, Verifies, ConflictAt, Attempt, Attempts, Preflight, AllConverted;
    CompleteRunVerifies(p, db0);
    forall stops
      ensures Preflight(p, Attempts(p, stops, db0))
      ensures Attempt(p, AtNode(|p.nodes|), Attempts(p, stops, db0)) == Attempt(p, AtNode(|p.nodes|), db0)
    {
      ResumeNeverTripsOnItself(p, db0, stops, 0);
      ResumeEndsTheSame(p, db0, stops);
    }
  }
}
