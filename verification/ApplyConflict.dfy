/** When a node cannot be converted: a condition on the plan and the captured database
    alone. internal/migration/apply_placements.go:13-128. */
module ApplyConflict {
  import opened Options
  import opened Tables
  import opened MigrationPlan
  import opened ApplySpec

  // ------------------------------------------------------------------- merging

  /** An incoming row contradicts the row of its code that is already there, or another incoming one. */
  ghost predicate Disagree(existing: seq<PlacementRow>, incoming: seq<PlacementRow>) {
    || (exists i :: 0 <= i < |incoming| && FindPlacement(existing, incoming[i].code).Some?
                    && FindPlacement(existing, incoming[i].code).value != incoming[i])
    || (exists i, j :: 0 <= i < |incoming| && 0 <= j < |incoming| && incoming[i].code == incoming[j].code && incoming[i] != incoming[j])
  }

  lemma FindPlacementAppended(existing: seq<PlacementRow>, v: PlacementRow, code: string)
    ensures FindPlacement(existing + [v], code) == if v.code == code then Some(v) else FindPlacement(existing, code)
  {
    assert (existing + [v])[..|existing|] == existing;
  }

  lemma {:induction false} FindPlacementFinds(existing: seq<PlacementRow>, code: string)
    ensures var found := FindPlacement(existing, code); found.Some? ==> found.value in existing && found.value.code == code
  {
    if existing != [] && existing[|existing| - 1].code != code {
      FindPlacementFinds(existing[..|existing| - 1], code);
    }
  }

  /** The first incoming row is already there, unchanged. */
  lemma DisagreeRepeated(existing: seq<PlacementRow>, incoming: seq<PlacementRow>)
    requires incoming != [] && FindPlacement(existing, incoming[0].code) == Some(incoming[0])
    ensures Disagree(existing, incoming) <==> Disagree(existing, incoming[1..])
  {
    var rest := incoming[1..];
    assert forall i :: 0 <= i < |rest| ==> rest[i] == incoming[i + 1];
    if Disagree(existing, incoming) {
      if i :| 0 <= i < |incoming| && FindPlacement(existing, incoming[i].code).Some? && FindPlacement(existing, incoming[i].code).value != incoming[i] {
        assert rest[i - 1] == incoming[i];
      } else {
        var i, j :| 0 <= i < |incoming| && 0 <= j < |incoming| && incoming[i].code == incoming[j].code && incoming[i] != incoming[j];
        assert i > 0 && j > 0;
        assert rest[i - 1] == incoming[i] && rest[j - 1] == incoming[j];
      }
    }
    if i :| 0 <= i < |rest| && FindPlacement(existing, rest[i].code).Some? && FindPlacement(existing, rest[i].code).value != rest[i] {
      assert incoming[i + 1] == rest[i];
    }
    if i, j :| 0 <= i < |rest| && 0 <= j < |rest| && rest[i].code == rest[j].code && rest[i] != rest[j] {
      assert incoming[i + 1] == rest[i] && incoming[j + 1] == rest[j];
    }
  }

  /** The first incoming row has a new code. */
  lemma DisagreeNew(existing: seq<PlacementRow>, incoming: seq<PlacementRow>)
    requires incoming != [] && FindPlacement(existing, incoming[0].code).None?
    ensures Disagree(existing, incoming) <==> Disagree(existing + [incoming[0]], incoming[1..])
  {
    var v, rest := incoming[0], incoming[1..];
    var more := existing + [v];
    assert forall i :: 0 <= i < |rest| ==> rest[i] == incoming[i + 1];
    forall code
      ensures FindPlacement(more, code) == if v.code == code then Some(v) else FindPlacement(existing, code)
    {
      FindPlacementAppended(existing, v, code);
    }
    if Disagree(existing, incoming) {
      if i :| 0 <= i < |incoming| && FindPlacement(existing, incoming[i].code).Some? && FindPlacement(existing, incoming[i].code).value != incoming[i] {
        assert rest[i - 1] == incoming[i];
      } else {
        var i, j :| 0 <= i < |incoming| && 0 <= j < |incoming| && incoming[i].code == incoming[j].code && incoming[i] != incoming[j];
        if i == 0 {
          assert rest[j - 1] == incoming[j];
        } else if j == 0 {
          assert rest[i - 1] == incoming[i];
        } else {
          assert rest[i - 1] == incoming[i] && rest[j - 1] == incoming[j];
        }
      }
    }
    if i :| 0 <= i < |rest| && FindPlacement(more, rest[i].code).Some? && FindPlacement(more, rest[i].code).value != rest[i] {
      assert incoming[i + 1] == rest[i];
      assert incoming[0] == v;
    }
    if i, j :| 0 <= i < |rest| && 0 <= j < |rest| && rest[i].code == rest[j].code && rest[i] != rest[j] {
      assert incoming[i + 1] == rest[i] && incoming[j + 1] == rest[j];
    }
  }

  /** Merging succeeds exactly when nothing disagrees, and then gives all rows of both. */
  lemma {:induction false} MergeExactly(existing: seq<PlacementRow>, incoming: seq<PlacementRow>)
    ensures Merge(existing, incoming).Ok? <==> !Disagree(existing, incoming)
    ensures Merge(existing, incoming).Ok? ==> forall v :: v in Merge(existing, incoming).value <==> v in existing || v in incoming
    ensures Merge(existing, incoming).Err? ==> Merge(existing, incoming).error == PlacementConflict
    decreases |incoming|
  {
    if incoming != [] {
      var v := incoming[0];
      FindPlacementFinds(existing, v.code);
      match FindPlacement(existing, v.code)
      case Some(found) =>
        if found == v {
          DisagreeRepeated(existing, incoming);
          MergeExactly(existing, incoming[1..]);
        }
      case None =>
        DisagreeNew(existing, incoming);
        MergeExactly(existing + [v], incoming[1..]);
    }
  }

  /** The rows of all sources, one after the other. */
  function RowsOf(db: Database, sources: seq<Id>): seq<PlacementRow> {
    if sources == [] then [] else OwnedBy(db, sources[0]).placements + RowsOf(db, sources[1..])
  }

  lemma {:induction false} MergeSplit(existing: seq<PlacementRow>, first: seq<PlacementRow>, second: seq<PlacementRow>)
    ensures Merge(existing, first + second) ==
            match Merge(existing, first)
            case Err(e) => Err(e)
            case Ok(merged) => Merge(merged, second)
    decreases |first|
  {
    if first == [] {
      assert first + second == second;
    } else {
      assert (first + second)[1..] == first[1..] + second;
      match FindPlacement(existing, first[0].code)
      case Some(found) => if found == first[0] { MergeSplit(existing, first[1..], second); }
      case None => MergeSplit(existing + [first[0]], first[1..], second);
    }
  }

  lemma {:induction false} MergeAllIsMerge(db: Database, existing: seq<PlacementRow>, sources: seq<Id>)
    ensures MergeAll(db, existing, sources) == Merge(existing, RowsOf(db, sources))
    decreases |sources|
  {
    if sources != [] {
      var rows := OwnedBy(db, sources[0]).placements;
      MergeSplit(existing, rows, RowsOf(db, sources[1..]));
      match Merge(existing, rows)
      case Err(_) =>
      case Ok(merged) => MergeAllIsMerge(db, merged, sources[1..]);
    }
  }

  lemma {:induction false} RowsOfMeaning(db: Database, sources: seq<Id>, v: PlacementRow)
    ensures v in RowsOf(db, sources) <==> exists x :: x in sources && v in OwnedBy(db, x).placements
  {
    if sources != [] {
      RowsOfMeaning(db, sources[1..], v);
      if x :| x in sources && v in OwnedBy(db, x).placements {
        assert x == sources[0] || x in sources[1..];
      }
    }
  }

  lemma DisagreeByContent(existing: seq<PlacementRow>, a: seq<PlacementRow>, b: seq<PlacementRow>)
    requires (forall v :: v in a <==> v in b) && Disagree(existing, a)
    ensures Disagree(existing, b)
  {
    if i :| 0 <= i < |a| && FindPlacement(existing, a[i].code).Some? && FindPlacement(existing, a[i].code).value != a[i] {
      assert a[i] in a && a[i] in b;
      var k :| 0 <= k < |b| && b[k] == a[i];
    } else {
      var i, j :| 0 <= i < |a| && 0 <= j < |a| && a[i].code == a[j].code && a[i] != a[j];
      assert a[i] in a && a[i] in b && a[j] in a && a[j] in b;
      var k :| 0 <= k < |b| && b[k] == a[i];
      var l :| 0 <= l < |b| && b[l] == a[j];
    }
  }

  /** The order in which the sources are merged changes neither the verdict nor the rows. */
  lemma MergeOrderDoesNotMatter(db: Database, existing: seq<PlacementRow>, first: seq<Id>, second: seq<Id>)
    requires forall x :: x in first <==> x in second
    ensures MergeAll(db, existing, first).Ok? <==> MergeAll(db, existing, second).Ok?
    ensures MergeAll(db, existing, first).Ok? ==>
              forall v :: v in MergeAll(db, existing, first).value <==> v in MergeAll(db, existing, second).value
  {
    var a, b := RowsOf(db, first), RowsOf(db, second);
    forall v
      ensures v in a <==> v in b
    {
      RowsOfMeaning(db, first, v);
      RowsOfMeaning(db, second, v);
    }
    MergeAllIsMerge(db, existing, first);
    MergeAllIsMerge(db, existing, second);
    MergeExactly(existing, a);
    MergeExactly(existing, b);
    if Disagree(existing, a) {
      DisagreeByContent(existing, a, b);
    }
    if Disagree(existing, b) {
      DisagreeByContent(existing, b, a);
    }
  }

  /** Only the rows of the sources matter. */
  lemma {:induction false} MergeAllFrame(before: Database, after: Database, existing: seq<PlacementRow>, sources: seq<Id>)
    requires forall x :: x in sources ==> OwnedBy(before, x).placements == OwnedBy(after, x).placements
    ensures MergeAll(before, existing, sources) == MergeAll(after, existing, sources)
    decreases |sources|
  {
    if sources != [] {
      match Merge(existing, OwnedBy(before, sources[0]).placements)
      case Err(_) =>
      case Ok(merged) => MergeAllFrame(before, after, merged, sources[1..]);
    }
  }

  // -------------------------------------------------------------- registration

  /** A placement that some node of the given type ends up with. */
  datatype Need = Need(kind: Kind, row: PlacementRow)

  /** The registration that the need calls for was captured with the plan. */
  predicate InBaseline(baseline: seq<CategoryRow>, x: Need) {
    x.row.category.Some? && Registered(baseline, x.row.code, x.kind, x.row.category.value)
  }

  /** Both call for one registration, with different visibility or order. */
  predicate Differ(x: Need, y: Need) {
    && x.kind == y.kind && x.row.code == y.row.code && x.row.category.Some? && x.row.category == y.row.category
    && (x.row.visible != y.row.visible || x.row.order != y.row.order)
  }

  /** The registration is missing and the identity it would get belongs to another row. */
  predicate IdentityTaken(baseline: seq<CategoryRow>, x: Need) {
    && x.row.category.Some? && !InBaseline(baseline, x)
    && CategoryKeyTaken(baseline, Derived(x.row.code, x.kind, x.row.category.value))
  }

  /** `x` cannot be served after `earlier`. */
  ghost predicate Refused(baseline: seq<CategoryRow>, earlier: seq<Need>, x: Need) {
    IdentityTaken(baseline, x) || (!InBaseline(baseline, x) && exists i :: 0 <= i < |earlier| && Differ(x, earlier[i]))
  }

  /** `c` is the registration row that serves `x`. */
  predicate Serves(c: CategoryRow, x: Need) {
    && x.row.category.Some? && Registers(c, x.row.code, x.kind, x.row.category.value)
    && c.visible == x.row.visible && c.order == x.row.order
  }

  ghost predicate Served(baseline: seq<CategoryRow>, categories: seq<CategoryRow>, x: Need) {
    x.row.category.Some? ==>
      var found := FindRegistration(categories, x.row.code, x.kind, x.row.category.value);
      found.Some? && (InBaseline(baseline, x) || Serves(found.value, x))
  }

  ghost predicate SeededBy(baseline: seq<CategoryRow>, needs: seq<Need>, c: CategoryRow) {
    && c.id == Derived(c.code, c.kind, c.category)
    && !Registered(baseline, c.code, c.kind, c.category) && !CategoryKeyTaken(baseline, c.id)
    && exists i :: 0 <= i < |needs| && Serves(c, needs[i])
  }

  /** `categories` is the baseline after `needs` have been served in order. */
  ghost predicate Catalog(baseline: seq<CategoryRow>, needs: seq<Need>, categories: seq<CategoryRow>) {
    && baseline <= categories
    && (forall i :: 0 <= i < |needs| ==> Served(baseline, categories, needs[i]))
    && (forall i :: |baseline| <= i < |categories| ==> SeededBy(baseline, needs, categories[i]))
  }

  /** What was captured: exactly the rows whose identities the plan lists. */
  ghost predicate IsBaseline(p: Plan, baseline: seq<CategoryRow>) {
    && (forall id :: id in p.categories ==> CategoryKeyTaken(baseline, id))
    && (forall i :: 0 <= i < |baseline| ==> baseline[i].id in p.categories)
  }

  lemma {:induction false} FindRegistrationMeaning(categories: seq<CategoryRow>, code: string, kind: Kind, category: string)
    ensures var found := FindRegistration(categories, code, kind, category);
            && found.Some? == Registered(categories, code, kind, category)
            && (found.Some? ==> found.value in categories && Registers(found.value, code, kind, category))
  {
    if categories != [] && !Registers(categories[0], code, kind, category) {
      FindRegistrationMeaning(categories[1..], code, kind, category);
      assert forall i :: 0 < i < |categories| ==> categories[i] == categories[1..][i - 1];
    }
  }

  /** Rows at the end are found only when none before them matches. */
  lemma {:induction false} FindRegistrationSplit(front: seq<CategoryRow>, back: seq<CategoryRow>, code: string, kind: Kind, category: string)
    ensures FindRegistration(front + back, code, kind, category) ==
            if FindRegistration(front, code, kind, category).Some? then FindRegistration(front, code, kind, category)
            else FindRegistration(back, code, kind, category)
    decreases |front|
  {
    if front == [] {
      assert front + back == back;
    } else {
      assert (front + back)[1..] == front[1..] + back;
      if !Registers(front[0], code, kind, category) {
        FindRegistrationSplit(front[1..], back, code, kind, category);
      }
    }
  }

  lemma FindIn(baseline: seq<CategoryRow>, needs: seq<Need>, categories: seq<CategoryRow>, x: Need)
    requires Catalog(baseline, needs, categories) && x.row.category.Some?
    ensures var found := FindRegistration(categories, x.row.code, x.kind, x.row.category.value);
            && (InBaseline(baseline, x) ==> found.Some? && found.value in baseline)
            && (!InBaseline(baseline, x) && found.Some? ==> SeededBy(baseline, needs, found.value))
            && (found.Some? ==> Registers(found.value, x.row.code, x.kind, x.row.category.value))
            && (found.None? ==> !Registered(categories, x.row.code, x.kind, x.row.category.value))
  {
    hide SeededBy, Served;
    var code, kind, category := x.row.code, x.kind, x.row.category.value;
    var added := categories[|baseline|..];
    assert categories == baseline + added;
    FindRegistrationSplit(baseline, added, code, kind, category);
    FindRegistrationMeaning(baseline, code, kind, category);
    FindRegistrationMeaning(added, code, kind, category);
    FindRegistrationMeaning(categories, code, kind, category);
    assert forall i :: 0 <= i < |added| ==> added[i] == categories[|baseline| + i];
  }

  /** A need whose registration is there: it is refused exactly when the row does not serve it. */
  lemma RegisteredNeed(p: Plan, baseline: seq<CategoryRow>, needs: seq<Need>, categories: seq<CategoryRow>, x: Need)
    requires IsBaseline(p, baseline) && Catalog(baseline, needs, categories)
    requires x.row.category.Some? && FindRegistration(categories, x.row.code, x.kind, x.row.category.value).Some?
    ensures var c := FindRegistration(categories, x.row.code, x.kind, x.row.category.value).value;
            Refused(baseline, needs, x) <==> !(c.id in p.categories || (c.visible == x.row.visible && c.order == x.row.order))
    ensures !Refused(baseline, needs, x) ==> Served(baseline, categories, x)
  {
    FindIn(baseline, needs, categories, x);
    var c := FindRegistration(categories, x.row.code, x.kind, x.row.category.value).value;
    if InBaseline(baseline, x) {
      assert c.id in p.categories;
    } else {
      assert SeededBy(baseline, needs, c);
      assert c.id !in p.categories;
      var i :| 0 <= i < |needs| && Serves(c, needs[i]);
      if c.visible != x.row.visible || c.order != x.row.order {
        assert Differ(x, needs[i]);
      } else {
        forall j | 0 <= j < |needs|
          ensures !Differ(x, needs[j])
        {
          assert Served(baseline, categories, needs[j]);
        }
      }
    }
  }

  /** A need whose registration is missing: it is refused exactly when the identity is taken. */
  lemma MissingNeed(p: Plan, baseline: seq<CategoryRow>, needs: seq<Need>, categories: seq<CategoryRow>, x: Need)
    requires Catalog(baseline, needs, categories)
    requires x.row.category.Some? && FindRegistration(categories, x.row.code, x.kind, x.row.category.value).None?
    ensures Refused(baseline, needs, x) <==> CategoryKeyTaken(categories, Derived(x.row.code, x.kind, x.row.category.value))
    ensures !InBaseline(baseline, x)
  {
    FindIn(baseline, needs, categories, x);
    var id := Derived(x.row.code, x.kind, x.row.category.value);
    forall j | 0 <= j < |needs|
      ensures !Differ(x, needs[j])
    {
      assert Served(baseline, categories, needs[j]);
    }
    forall i | |baseline| <= i < |categories|
      ensures categories[i].id != id
    {
      assert SeededBy(baseline, needs, categories[i]);
      assert !Registers(categories[i], x.row.code, x.kind, x.row.category.value);
    }
    if i :| 0 <= i < |categories| && categories[i].id == id {
      assert baseline[i].id == id;
    }
    if i :| 0 <= i < |baseline| && baseline[i].id == id {
      assert categories[i].id == id;
    }
  }

  lemma SeededStays(baseline: seq<CategoryRow>, needs: seq<Need>, x: Need, c: CategoryRow)
    requires SeededBy(baseline, needs, c)
    ensures SeededBy(baseline, needs + [x], c)
  {
    var i :| 0 <= i < |needs| && Serves(c, needs[i]);
    assert Serves(c, (needs + [x])[i]);
  }

  lemma CatalogServed(baseline: seq<CategoryRow>, needs: seq<Need>, categories: seq<CategoryRow>, x: Need)
    requires Catalog(baseline, needs, categories) && Served(baseline, categories, x)
    ensures Catalog(baseline, needs + [x], categories)
  {
    hide Served, SeededBy;
    forall i | |baseline| <= i < |categories|
      ensures SeededBy(baseline, needs + [x], categories[i])
    {
      SeededStays(baseline, needs, x, categories[i]);
    }
  }

  lemma ServedStays(baseline: seq<CategoryRow>, categories: seq<CategoryRow>, c: CategoryRow, y: Need)
    requires Served(baseline, categories, y)
    ensures Served(baseline, categories + [c], y)
  {
    if y.row.category.Some? {
      FindRegistrationSplit(categories, [c], y.row.code, y.kind, y.row.category.value);
    }
  }

  lemma CatalogAdded(baseline: seq<CategoryRow>, needs: seq<Need>, categories: seq<CategoryRow>, x: Need)
    requires Catalog(baseline, needs, categories) && x.row.category.Some?
    requires FindRegistration(categories, x.row.code, x.kind, x.row.category.value).None?
    requires !Refused(baseline, needs, x) && !InBaseline(baseline, x)
    ensures var c := CategoryRow(Derived(x.row.code, x.kind, x.row.category.value), x.row.code, x.kind, x.row.category.value, x.row.visible, x.row.order);
            Catalog(baseline, needs + [x], categories + [c])
  {
    var category := x.row.category.value;
    var c := CategoryRow(Derived(x.row.code, x.kind, category), x.row.code, x.kind, category, x.row.visible, x.row.order);
    var all := needs + [x];
    FindRegistrationSplit(categories, [c], x.row.code, x.kind, category);
    forall i | 0 <= i < |all|
      ensures Served(baseline, categories + [c], all[i])
    {
      if i < |needs| {
        ServedStays(baseline, categories, c, needs[i]);
      }
    }
    assert SeededBy(baseline, all, c) by {
      assert Serves(c, all[|needs|]);
    }
    forall i | |baseline| <= i < |categories|
      ensures SeededBy(baseline, all, categories[i])
    {
      SeededStays(baseline, needs, x, categories[i]);
    }
  }

  /** One registration: it is refused exactly for a conflict, and otherwise serves the need. */
  lemma RegisterExactly(p: Plan, baseline: seq<CategoryRow>, needs: seq<Need>, categories: seq<CategoryRow>, x: Need)
    requires IsBaseline(p, baseline) && Catalog(baseline, needs, categories)
    ensures Register(p, x.kind, categories, x.row).Ok? <==> !Refused(baseline, needs, x)
    ensures Register(p, x.kind, categories, x.row).Ok? ==> Catalog(baseline, needs + [x], Register(p, x.kind, categories, x.row).value)
    ensures Register(p, x.kind, categories, x.row).Err? ==> Register(p, x.kind, categories, x.row).error == RegistrationConflict
  {
    hide Catalog, Refused, IsBaseline, Served, CategoryKeyTaken;
    match x.row.category
    case None =>
      NothingNeeded(baseline, needs, categories, x);
    case Some(category) =>
      if FindRegistration(categories, x.row.code, x.kind, category).Some? {
        RegisteredNeed(p, baseline, needs, categories, x);
        if !Refused(baseline, needs, x) {
          CatalogServed(baseline, needs, categories, x);
        }
      } else {
        MissingNeed(p, baseline, needs, categories, x);
        if !Refused(baseline, needs, x) {
          CatalogAdded(baseline, needs, categories, x);
        }
      }
  }

  lemma NothingNeeded(baseline: seq<CategoryRow>, needs: seq<Need>, categories: seq<CategoryRow>, x: Need)
    requires Catalog(baseline, needs, categories) && x.row.category.None?
    ensures !Refused(baseline, needs, x) && Catalog(baseline, needs + [x], categories)
  {
    CatalogServed(baseline, needs, categories, x);
  }

  function Tagged(kind: Kind, rows: seq<PlacementRow>): (r: seq<Need>)
    ensures |r| == |rows| && forall i :: 0 <= i < |rows| ==> r[i] == Need(kind, rows[i])
  {
    seq(|rows|, i requires 0 <= i < |rows| => Need(kind, rows[i]))
  }

  /** Some row of `rows` cannot be served after `needs` and the other rows. */
  ghost predicate SomeRefused(baseline: seq<CategoryRow>, needs: seq<Need>, kind: Kind, rows: seq<PlacementRow>) {
    exists i :: 0 <= i < |rows| && Refused(baseline, needs + Tagged(kind, rows), Need(kind, rows[i]))
  }

  lemma RefusedMore(baseline: seq<CategoryRow>, fewer: seq<Need>, more: seq<Need>, x: Need)
    requires (forall y :: y in fewer ==> y in more) && Refused(baseline, fewer, x)
    ensures Refused(baseline, more, x)
  {
    if !IdentityTaken(baseline, x) {
      var i :| 0 <= i < |fewer| && Differ(x, fewer[i]);
      assert fewer[i] in fewer && fewer[i] in more;
      var k :| 0 <= k < |more| && more[k] == fewer[i];
    }
  }

  lemma TaggedStep(needs: seq<Need>, kind: Kind, rows: seq<PlacementRow>)
    requires rows != []
    ensures needs + Tagged(kind, rows) == needs + [Need(kind, rows[0])] + Tagged(kind, rows[1..])
  {
  }

  lemma SomeRefusedStep(baseline: seq<CategoryRow>, needs: seq<Need>, kind: Kind, rows: seq<PlacementRow>)
    requires rows != []
    ensures SomeRefused(baseline, needs, kind, rows) <==>
              Refused(baseline, needs, Need(kind, rows[0])) || SomeRefused(baseline, needs + [Need(kind, rows[0])], kind, rows[1..])
  {
    hide Refused, Tagged;
    var x, rest := Need(kind, rows[0]), rows[1..];
    var all := needs + Tagged(kind, rows);
    TaggedStep(needs, kind, rows);
    if Refused(baseline, needs, x) {
      RefusedMore(baseline, needs, all, x);
    }
    if i :| 0 <= i < |rest| && Refused(baseline, all, Need(kind, rest[i])) {
      assert rows[i + 1] == rest[i];
    }
    if i :| 0 <= i < |rows| && Refused(baseline, all, Need(kind, rows[i])) {
      if i > 0 {
        assert rest[i - 1] == rows[i];
      } else {
        RefusedFirst(baseline, needs, kind, rows);
      }
    }
  }

  /** When the first row cannot be served after all the others, either it cannot be served
      at all or one of the others cannot be served after it. */
  lemma RefusedFirst(baseline: seq<CategoryRow>, needs: seq<Need>, kind: Kind, rows: seq<PlacementRow>)
    requires rows != [] && Refused(baseline, needs + Tagged(kind, rows), Need(kind, rows[0]))
    ensures Refused(baseline, needs, Need(kind, rows[0])) || SomeRefused(baseline, needs + [Need(kind, rows[0])], kind, rows[1..])
  {
    hide InBaseline, IdentityTaken;
    var x, rest, all := Need(kind, rows[0]), rows[1..], needs + Tagged(kind, rows);
    TaggedStep(needs, kind, rows);
    if !Refused(baseline, needs, x) {
      var j :| 0 <= j < |all| && Differ(x, all[j]);
      assert j > |needs|;
      assert all[j] == Need(kind, rest[j - |needs| - 1]);
      DifferBack(baseline, all, x, all[j], |needs|);
    }
  }

  /** Differing is mutual, and whether the registration was captured is shared. */
  lemma DifferBack(baseline: seq<CategoryRow>, needs: seq<Need>, x: Need, y: Need, h: nat)
    requires Differ(x, y) && !InBaseline(baseline, x) && h < |needs| && needs[h] == x
    ensures Refused(baseline, needs, y)
  {
    assert Differ(y, needs[h]);
  }

  /** All registrations of one node. */
  lemma {:induction false} RegisterAllExactly(p: Plan, baseline: seq<CategoryRow>, needs: seq<Need>, kind: Kind, categories: seq<CategoryRow>, rows: seq<PlacementRow>)
    requires IsBaseline(p, baseline) && Catalog(baseline, needs, categories)
    ensures RegisterAll(p, kind, categories, rows).Ok? <==> !SomeRefused(baseline, needs, kind, rows)
    ensures RegisterAll(p, kind, categories, rows).Ok? ==> Catalog(baseline, needs + Tagged(kind, rows), RegisterAll(p, kind, categories, rows).value)
    ensures RegisterAll(p, kind, categories, rows).Err? ==> RegisterAll(p, kind, categories, rows).error == RegistrationConflict
    decreases |rows|
  {
    hide Catalog, IsBaseline, Refused, Register;
    if rows == [] {
      assert needs + Tagged(kind, rows) == needs;
    } else {
      var x := Need(kind, rows[0]);
      SomeRefusedStep(baseline, needs, kind, rows);
      RegisterExactly(p, baseline, needs, categories, x);
      match Register(p, kind, categories, rows[0])
      case Err(_) =>
      case Ok(next) =>
        RegisterAllExactly(p, baseline, needs + [x], kind, next, rows[1..]);
        assert needs + [x] + Tagged(kind, rows[1..]) == needs + Tagged(kind, rows);
    }
  }

  // ------------------------------------------------------------- the condition

  /** The placements that node `n` gets, from the rows captured for it and its sources. */
  function Wanted(p: Plan, n: Node, db: Database): seq<PlacementRow> {
    match MergeAll(db, OwnedBy(db, n.id).placements, PlacementSources(p, n))
    case Err(_) => []
    case Ok(merged) => DefaultPlacement(n, merged)
  }

  /** What the first `k` nodes need of the category table. */
  function Needs(p: Plan, db: Database, k: nat): seq<Need>
    requires k <= |p.nodes|
  {
    if k == 0 then [] else Needs(p, db, k - 1) + Tagged(p.nodes[k - 1].plugin.kind, Wanted(p, p.nodes[k - 1], db))
  }

  lemma {:induction false} NeedsMeaning(p: Plan, db: Database, k: nat, x: Need)
    requires k <= |p.nodes|
    ensures x in Needs(p, db, k) <==> exists j :: 0 <= j < k && x.kind == p.nodes[j].plugin.kind && x.row in Wanted(p, p.nodes[j], db)
  {
    hide Wanted;
    if k > 0 {
      NeedsMeaning(p, db, k - 1, x);
      var n := p.nodes[k - 1];
      var last := Tagged(n.plugin.kind, Wanted(p, n, db));
      if x in last {
        var i :| 0 <= i < |last| && last[i] == x;
        assert x.row == Wanted(p, n, db)[i];
      }
      if x.kind == n.plugin.kind && x.row in Wanted(p, n, db) {
        var i :| 0 <= i < |Wanted(p, n, db)| && Wanted(p, n, db)[i] == x.row;
        assert last[i] == x;
      }
    }
  }

  /** Rows of the node and of the sources merged into it contradict each other. */
  ghost predicate PlacementsClash(p: Plan, db: Database, k: nat)
    requires k < |p.nodes|
  {
    Disagree(OwnedBy(db, p.nodes[k].id).placements, RowsOf(db, PlacementSources(p, p.nodes[k])))
  }

  /** A placement of node `k` needs a registration that is not in the captured catalog, and
      its identity is taken or a node up to `k` wants it with another visibility or order. */
  ghost predicate RegistrationsClash(p: Plan, db: Database, k: nat)
    requires k < |p.nodes|
  {
    exists v :: v in Wanted(p, p.nodes[k], db) && NeedClashes(p, db, k, Need(p.nodes[k].plugin.kind, v))
  }

  /** The captured data do not allow node `k` to be converted after the nodes before it. */
  ghost predicate ConflictAt(p: Plan, db: Database, k: nat)
    requires k < |p.nodes|
  {
    PlacementsClash(p, db, k) || RegistrationsClash(p, db, k)
  }

  /** A placement of node `k` that clashes. */
  ghost predicate NeedClashes(p: Plan, db: Database, k: nat, x: Need)
    requires k < |p.nodes|
  {
    || IdentityTaken(db.categories, x)
    || (!InBaseline(db.categories, x)
        && exists j, u :: 0 <= j <= k && u in Wanted(p, p.nodes[j], db) && Differ(x, Need(p.nodes[j].plugin.kind, u)))
  }

  lemma NeedClashesMeans(p: Plan, db: Database, k: nat, x: Need)
    requires k < |p.nodes|
    ensures NeedClashes(p, db, k, x) <==> Refused(db.categories, Needs(p, db, k + 1), x)
  {
    hide Wanted, InBaseline, IdentityTaken, Needs, Differ;
    var all := Needs(p, db, k + 1);
    if j, u :| 0 <= j <= k && u in Wanted(p, p.nodes[j], db) && Differ(x, Need(p.nodes[j].plugin.kind, u)) {
      NeedsMeaning(p, db, k + 1, Need(p.nodes[j].plugin.kind, u));
      var h :| 0 <= h < |all| && all[h] == Need(p.nodes[j].plugin.kind, u);
    }
    if h :| 0 <= h < |all| && Differ(x, all[h]) {
      NeedsMeaning(p, db, k + 1, all[h]);
      var j :| 0 <= j < k + 1 && all[h].kind == p.nodes[j].plugin.kind && all[h].row in Wanted(p, p.nodes[j], db);
      assert all[h] == Need(p.nodes[j].plugin.kind, all[h].row);
    }
  }

  lemma RegistrationsClashMeans(p: Plan, db: Database, k: nat)
    requires k < |p.nodes|
    ensures RegistrationsClash(p, db, k) <==> SomeRefused(db.categories, Needs(p, db, k), p.nodes[k].plugin.kind, Wanted(p, p.nodes[k], db))
  {
    hide Wanted, NeedClashes, Refused;
    var n := p.nodes[k];
    var rows, all := Wanted(p, n, db), Needs(p, db, k + 1);
    assert all == Needs(p, db, k) + Tagged(n.plugin.kind, rows);
    forall v
      ensures NeedClashes(p, db, k, Need(n.plugin.kind, v)) <==> Refused(db.categories, all, Need(n.plugin.kind, v))
    {
      NeedClashesMeans(p, db, k, Need(n.plugin.kind, v));
    }
    if v :| v in rows && NeedClashes(p, db, k, Need(n.plugin.kind, v)) {
      var i :| 0 <= i < |rows| && rows[i] == v;
    }
    if i :| 0 <= i < |rows| && Refused(db.categories, all, Need(n.plugin.kind, rows[i])) {
      assert rows[i] in rows;
    }
  }

  /** The transfer of node `k` into a catalog that has served the nodes before it: refused
      exactly for a conflict, and otherwise the next catalog. */
  lemma TransferExactly(p: Plan, db0: Database, k: nat, db: Database)
    requires k < |p.nodes| && IsBaseline(p, db0.categories) && Catalog(db0.categories, Needs(p, db0, k), db.categories)
    requires OwnedBy(db, p.nodes[k].id).placements == OwnedBy(db0, p.nodes[k].id).placements
    requires forall x :: x in PlacementSources(p, p.nodes[k]) ==> OwnedBy(db, x).placements == OwnedBy(db0, x).placements
    ensures TransferPlacements(p, p.nodes[k], db).Ok? <==> !ConflictAt(p, db0, k)
    ensures TransferPlacements(p, p.nodes[k], db).Ok? ==>
              Catalog(db0.categories, Needs(p, db0, k + 1), TransferPlacements(p, p.nodes[k], db).value.categories)
  {
    hide Catalog, IsBaseline, RegistrationsClash, Disagree, SomeRefused, Merge, RowsOf, PlacementSources, DefaultPlacement;
    var n := p.nodes[k];
    var own, sources := OwnedBy(db0, n.id).placements, PlacementSources(p, n);
    MergeAllFrame(db, db0, own, sources);
    MergeAllIsMerge(db0, own, sources);
    MergeExactly(own, RowsOf(db0, sources));
    RegistrationsClashMeans(p, db0, k);
    RegisterAllExactly(p, db0.categories, Needs(p, db0, k), n.plugin.kind, db.categories, Wanted(p, n, db0));
    if PlacementsClash(p, db0, k) {
      assert MergeAll(db0, own, sources).Err?;
    }
  }
}
