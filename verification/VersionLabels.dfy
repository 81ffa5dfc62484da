/** Version labels: internal/model/version.go:17-79, nextLabel in internal/migration/policy.go:71-132
    and the label check of internal/migration/release_validation.go:32-49. */
module VersionLabels {
  import opened Options
  import opened Decimal
  import opened Strings

  datatype Triple = Triple(major: nat, minor: nat, patch: nat)

  const UINT64 := 0x1_0000_0000_0000_0000
  const LIMIT := 1_000_000_000

  // ------------------------------------------------------------------ parsing

  /** strconv.ParseUint(part, 10, 64) */
  predicate IsUint64(part: string) {
    part != "" && AllDigits(part) && ValueOf(part) < UINT64
  }

  predicate Orderable(parts: seq<string>) {
    |parts| == 3 && IsUint64(parts[0]) && IsUint64(parts[1]) && IsUint64(parts[2])
  }

  function Parse(text: string): Option<Triple> {
    var parts := Split(Trim(text));
    if Orderable(parts) then Some(Triple(ValueOf(parts[0]), ValueOf(parts[1]), ValueOf(parts[2]))) else None
  }

  function Print3(t: Triple): string {
    Print(t.major) + "." + Print(t.minor) + "." + Print(t.patch)
  }

  /** A printed label splits into the printed numbers, also untrimmed. */
  lemma SplitPrinted(t: Triple)
    ensures Trim(Print3(t)) == Print3(t)
    ensures Split(Print3(t)) == [Print(t.major), Print(t.minor), Print(t.patch)]
  {
    var a, b, c := Print(t.major), Print(t.minor), Print(t.patch);
    assert Print3(t) == a + "." + (b + "." + c);
    assert Print3(t)[0] == a[0] && Print3(t)[|Print3(t)| - 1] == c[|c| - 1];
    TrimKeeps(Print3(t));
    SplitJoin([a, b, c]);
    assert Join([a, b, c]) == a + "." + Join([b, c]) && Join([b, c]) == b + "." + Join([c]);
  }

  /** Printing and parsing a label gives it back. */
  lemma PrintParse(t: Triple)
    requires t.major < UINT64 && t.minor < UINT64 && t.patch < UINT64
    ensures Parse(Print3(t)) == Some(t)
  {
    SplitPrinted(t);
    PrintValue(t.major);
    PrintValue(t.minor);
    PrintValue(t.patch);
  }

  /** internal/model/version.go:17-31 */
  method ParseVersion(v: string) returns (out: Triple, ok: bool)
    ensures ok <==> Parse(v).Some?
    ensures ok ==> Parse(v) == Some(out)
  {
    out := Triple(0, 0, 0);
    var parts := Split(Trim(v));
    if |parts| != 3 {
      return out, false;
    }
    for i := 0 to 3
      invariant forall j :: 0 <= j < i ==> IsUint64(parts[j])
      invariant i > 0 ==> out.major == ValueOf(parts[0])
      invariant i > 1 ==> out.minor == ValueOf(parts[1])
      invariant i > 2 ==> out.patch == ValueOf(parts[2])
    {
      if !IsUint64(parts[i]) {
        return out, false;
      }
      var n := ValueOf(parts[i]);
      if i == 0 {
        out := out.(major := n);
      } else if i == 1 {
        out := out.(minor := n);
      } else {
        out := out.(patch := n);
      }
    }
    ok := true;
  }

  // -------------------------------------------------------------------- order

  predicate Less(a: Triple, b: Triple) {
    || a.major < b.major
    || (a.major == b.major && a.minor < b.minor)
    || (a.major == b.major && a.minor == b.minor && a.patch < b.patch)
  }

  /** internal/model/version.go:43-66 */
  predicate VersionNotRegressed(current: string, next: string) {
    if Trim(current) == Trim(next) then true
    else
      match Parse(Trim(next))
      case None => false
      case Some(n) =>
        match Parse(Trim(current))
        case None => true
        case Some(c) =>
          if n.major != c.major then n.major > c.major
          else if n.minor != c.minor then n.minor > c.minor
          else if n.patch != c.patch then n.patch > c.patch
          else true
  }

  /** internal/model/version.go:70-79 */
  predicate VersionAdvanced(current: string, next: string) {
    if !VersionNotRegressed(current, next) then false
    else if Parse(next).None? then false
    else Parse(current).None? || Parse(current) != Parse(next)
  }

  /** What the publication rule accepts: a well-formed label above the current one, or
      any well-formed label when the current one cannot be ordered. */
  lemma AdvancedMeans(current: string, next: string)
    ensures VersionAdvanced(current, next) <==>
              Parse(next).Some? && (Parse(current).None? || Less(Parse(current).value, Parse(next).value))
  {
    TrimTwice(current);
    TrimTwice(next);
  }

  /** It is a strict order on all strings, well-formed or not. */
  lemma AdvancedIsStrictOrder(a: string, b: string, c: string)
    ensures !VersionAdvanced(a, a)
    ensures VersionAdvanced(a, b) ==> !VersionAdvanced(b, a)
    ensures VersionAdvanced(a, b) && VersionAdvanced(b, c) ==> VersionAdvanced(a, c)
  {
    hide VersionAdvanced, Parse;
    AdvancedMeans(a, a);
    AdvancedMeans(a, b);
    AdvancedMeans(b, a);
    AdvancedMeans(b, c);
    AdvancedMeans(a, c);
  }

  /** Two well-formed labels are ordered one way or the other unless they are equal numbers. */
  lemma AdvancedIsTotalOnLabels(a: string, b: string)
    requires Parse(a).Some? && Parse(b).Some?
    ensures VersionAdvanced(a, b) || VersionAdvanced(b, a) || Parse(a) == Parse(b)
  {
    hide VersionAdvanced, Parse;
    AdvancedMeans(a, b);
    AdvancedMeans(b, a);
  }

  /** The draft rule is the publication rule or an unchanged label. */
  lemma NotRegressedMeans(current: string, next: string)
    ensures VersionNotRegressed(current, next) <==>
              || VersionAdvanced(current, next)
              || Trim(current) == Trim(next)
              || (Parse(next).Some? && Parse(current) == Parse(next))
  {
    TrimTwice(current);
    TrimTwice(next);
  }

  // --------------------------------------------------------------- next label

  predicate Short(parts: seq<string>) {
    forall i :: 0 <= i < |parts| ==> |parts[i]| <= 9
  }

  /** A label that spends a number: well-formed, each part at most nine characters. */
  predicate Counts(text: string) {
    Parse(text).Some? && Short(Split(Trim(text)))
  }

  predicate TooLong(text: string) {
    Parse(text).Some? && !Short(Split(Trim(text)))
  }

  /** The label's place in the sequence 0.0.0, 0.0.1, ..., each part below a thousand million. */
  function Rank(t: Triple): nat {
    (t.major * LIMIT + t.minor) * LIMIT + t.patch
  }

  const LAST := Triple(LIMIT - 1, LIMIT - 1, LIMIT - 1)

  predicate InRange(t: Triple) {
    t.major < LIMIT && t.minor < LIMIT && t.patch < LIMIT
  }

  lemma RankOrders(a: Triple, b: Triple)
    requires InRange(a) && InRange(b)
    ensures Less(a, b) <==> Rank(a) < Rank(b)
    ensures a == b <==> Rank(a) == Rank(b)
  {
    if a.major < b.major {
      assert (a.major + 1) * LIMIT <= b.major * LIMIT;
    } else if b.major < a.major {
      assert (b.major + 1) * LIMIT <= a.major * LIMIT;
    }
    MixedRadix(a.major * LIMIT + a.minor, a.patch, b.major * LIMIT + b.minor, b.patch);
    MixedRadix(a.major, a.minor, b.major, b.minor);
  }

  lemma MixedRadix(x: nat, r: nat, y: nat, q: nat)
    requires r < LIMIT && q < LIMIT
    ensures x * LIMIT + r < y * LIMIT + q <==> x < y || (x == y && r < q)
    ensures x * LIMIT + r == y * LIMIT + q <==> x == y && r == q
  {
  }

  lemma CountsInRange(text: string)
    requires Counts(text)
    ensures InRange(Parse(text).value)
  {
    var parts := Split(Trim(text));
    forall i | 0 <= i < 3
      ensures ValueOf(parts[i]) < LIMIT
    {
      ValueBound(parts[i]);
      PowBound(|parts[i]|);
    }
  }

  lemma PowBound(e: nat)
    requires e <= 9
    ensures Pow10(e) <= LIMIT
  {
    assert Pow10(0) == 1;
    assert Pow10(1) == 10;
    assert Pow10(2) == 100;
    assert Pow10(3) == 1000;
    assert Pow10(4) == 10000;
    assert Pow10(5) == 100000;
    assert Pow10(6) == 1000000;
    assert Pow10(7) == 10000000;
    assert Pow10(8) == 100000000;
    assert Pow10(9) == 1000000000;
  }

  datatype Scan = Scan(highest: Triple, found: bool, valid: bool)

  /** What has been read: `highest` is the greatest of the labels that count. */
  ghost predicate Scanned(labels: seq<string>, scan: Scan) {
    && (scan.valid <==> forall i :: 0 <= i < |labels| ==> !TooLong(labels[i]))
    && (scan.found <==> exists i :: 0 <= i < |labels| && Counts(labels[i]))
    && (forall i :: 0 <= i < |labels| && Counts(labels[i]) ==> !Less(scan.highest, Parse(labels[i]).value))
    && (scan.found ==> exists i :: 0 <= i < |labels| && Counts(labels[i]) && Parse(labels[i]) == Some(scan.highest))
    && (!scan.found ==> scan.highest == Triple(0, 0, 0))
  }

  predicate Greater(found: bool, parts: Triple, highest: Triple) {
    if parts.major != highest.major then parts.major > highest.major
    else if parts.minor != highest.minor then parts.minor > highest.minor
    else if parts.patch != highest.patch then parts.patch > highest.patch
    else !found
  }

  /** The closure of internal/migration/policy.go:76-99, reading one more label. */
  method Include(text: string, scan: Scan, ghost labels: seq<string>) returns (scan': Scan)
    requires Scanned(labels, scan)
    ensures Scanned(labels + [text], scan')
  {
    hide Counts, TooLong, Less, Parse;
    scan' := scan;
    var parts, ok := ParseVersion(text);
    LabelKinds(text);
    if ok {
      var pieces := Split(Trim(text));
      var short := true;
      for i := 0 to |pieces|
        invariant short <==> forall j :: 0 <= j < i ==> |pieces[j]| <= 9
      {
        if |pieces[i]| > 9 {
          short := false;
        }
      }
      if !short {
        scan' := scan.(valid := false);
      } else {
        if Greater(scan.found, parts, scan.highest) {
          scan' := scan'.(highest := parts);
        }
        scan' := scan'.(found := true);
      }
    }
    ScanStep(labels, scan, text, scan');
  }

  lemma LabelKinds(text: string)
    ensures Parse(text).None? ==> !Counts(text) && !TooLong(text)
    ensures Parse(text).Some? ==> (Counts(text) <==> Short(Split(Trim(text)))) && (TooLong(text) <==> !Short(Split(Trim(text))))
  {
  }

  lemma ScanStep(labels: seq<string>, scan: Scan, text: string, scan': Scan)
    requires Scanned(labels, scan)
    requires scan' == if TooLong(text) then scan.(valid := false)
                      else if Counts(text) then
                        Scan(if Greater(scan.found, Parse(text).value, scan.highest) then Parse(text).value else scan.highest, true, scan.valid)
                      else scan
    ensures Scanned(labels + [text], scan')
  {
    hide Short, Trim, Split, Orderable;
    var all := labels + [text];
    assert all[|labels|] == text && forall i :: 0 <= i < |labels| ==> all[i] == labels[i];
    if scan.found {
      var i :| 0 <= i < |labels| && Counts(labels[i]) && Parse(labels[i]) == Some(scan.highest);
      assert Counts(all[i]) && Parse(all[i]) == Some(scan.highest);
    }
    if Counts(text) {
      assert Counts(all[|labels|]);
    }
    if TooLong(text) {
      assert TooLong(all[|labels|]);
    }
  }

  datatype Version = Version(pluginId: string, version: string, declared: Option<string>)

  datatype Release = Release(pluginId: string, versionLabel: string)

  /** The labels a plugin has ever carried. */
  ghost predicate Carried(id: string, current: Option<string>, versions: seq<Version>, releases: seq<Release>, text: string) {
    || current == Some(text)
    || (exists v :: v in versions && v.pluginId == id && (v.version == text || v.declared == Some(text)))
    || (exists r :: r in releases && r.pluginId == id && r.versionLabel == text)
  }

  ghost predicate Gathered(labels: seq<string>, id: string, current: Option<string>, versions: seq<Version>, releases: seq<Release>) {
    forall text :: text in labels <==> Carried(id, current, versions, releases, text)
  }

  lemma GatheredVersion(labels: seq<string>, id: string, current: Option<string>, versions: seq<Version>, v: Version)
    requires Gathered(labels, id, current, versions, [])
    ensures v.pluginId != id ==> Gathered(labels, id, current, versions + [v], [])
    ensures v.pluginId == id && v.declared.None? ==> Gathered(labels + [v.version], id, current, versions + [v], [])
    ensures v.pluginId == id && v.declared.Some? ==> Gathered(labels + [v.version] + [v.declared.value], id, current, versions + [v], [])
  {
    var all := versions + [v];
    forall text
      ensures Carried(id, current, all, [], text) <==>
                Carried(id, current, versions, [], text) || (v.pluginId == id && (v.version == text || v.declared == Some(text)))
    {
      assert v in all && forall w :: w in versions ==> w in all;
    }
  }

  lemma GatheredRelease(labels: seq<string>, id: string, current: Option<string>, versions: seq<Version>, releases: seq<Release>, r: Release)
    requires Gathered(labels, id, current, versions, releases)
    ensures r.pluginId != id ==> Gathered(labels, id, current, versions, releases + [r])
    ensures r.pluginId == id ==> Gathered(labels + [r.versionLabel], id, current, versions, releases + [r])
  {
    var all := releases + [r];
    forall text
      ensures Carried(id, current, versions, all, text) <==>
                Carried(id, current, versions, releases, text) || (r.pluginId == id && r.versionLabel == text)
    {
      assert r in all && forall w :: w in releases ==> w in all;
    }
  }

  /** Lines 100-115: every label the plugin carries is read. */
  method ScanHistory(id: string, current: Option<string>, versions: seq<Version>, releases: seq<Release>) returns (scan: Scan, ghost labels: seq<string>)
    ensures Scanned(labels, scan) && Gathered(labels, id, current, versions, releases)
  {
    hide Scanned, Gathered;
    scan, labels := Scan(Triple(0, 0, 0), false, true), [];
    NothingScanned(id, current);
    if current.Some? {
      scan := Include(current.value, scan, labels);
      labels := [current.value];
    }
    for n := 0 to |versions|
      invariant Scanned(labels, scan) && Gathered(labels, id, current, versions[..n], [])
    {
      var v := versions[n];
      GatheredVersion(labels, id, current, versions[..n], v);
      assert versions[..n + 1] == versions[..n] + [v];
      if v.pluginId == id {
        scan := Include(v.version, scan, labels);
        labels := labels + [v.version];
        if v.declared.Some? {
          scan := Include(v.declared.value, scan, labels);
          labels := labels + [v.declared.value];
        }
      }
    }
    assert versions[..|versions|] == versions && releases[..0] == [];
    for n := 0 to |releases|
      invariant Scanned(labels, scan) && Gathered(labels, id, current, versions, releases[..n])
    {
      var r := releases[n];
      GatheredRelease(labels, id, current, versions, releases[..n], r);
      assert releases[..n + 1] == releases[..n] + [r];
      if r.pluginId == id {
        scan := Include(r.versionLabel, scan, labels);
        labels := labels + [r.versionLabel];
      }
    }
    assert releases[..|releases|] == releases;
  }

  lemma NothingScanned(id: string, current: Option<string>)
    ensures Scanned([], Scan(Triple(0, 0, 0), false, true))
    ensures Gathered(if current.Some? then [current.value] else [], id, current, [], [])
    ensures forall text: string :: [] + [text] == [text]
    ensures forall versions: seq<Version> :: versions[..0] == []
  {
  }

  /** The successor in rank order, or nothing in the last two places: lines 122-132. */
  method Successor(highest: Triple) returns (next: Option<Triple>)
    requires InRange(highest)
    ensures next.None? <==> Rank(highest) + 2 >= LIMIT * LIMIT * LIMIT
    ensures next.Some? ==> InRange(next.value) && Rank(next.value) == Rank(highest) + 1
  {
    var h := [highest.major, highest.minor, highest.patch];
    var i := 2;
    while i >= 0
      invariant -1 <= i <= 2 && |h| == 3
      invariant i >= 0 ==> h[0] == highest.major
      invariant i >= 1 ==> h[1] == highest.minor
      invariant i == 2 ==> h[2] == highest.patch
      invariant i < 2 ==> h[2] == 0 && highest.patch == LIMIT - 1
      invariant i < 1 ==> h[1] == 0 && highest.minor == LIMIT - 1
      invariant i < 0 ==> h[0] == 0 && highest.major == LIMIT - 1
    {
      if h[i] == LIMIT - 1 {
        h := h[i := 0];
        i := i - 1;
      } else {
        h := h[i := h[i] + 1];
        var t := Triple(h[0], h[1], h[2]);
        RankOrders(t, LAST);
        RankTop(t);
        if t == LAST {
          return None;
        }
        return Some(t);
      }
    }
    RankTop(highest);
    next := None;
  }

  lemma RankTop(t: Triple)
    requires InRange(t)
    ensures Rank(LAST) + 1 == LIMIT * LIMIT * LIMIT
    ensures Rank(t) <= Rank(LAST)
  {
    RankOrders(LAST, t);
  }

  /** The label check of internal/migration/release_validation.go:40-45; it does not trim. */
  ghost predicate ReleasableLabel(text: string) {
    Parse(text).Some? && forall i :: 0 <= i < |Split(text)| ==> |Split(text)[i]| <= 9 && AllDigits(Split(text)[i])
  }

  /** That check as it runs: the parse and the parts are judged separately. */
  method ValidReleaseLabel(text: string) returns (valid: bool)
    ensures valid <==> ReleasableLabel(text)
  {
    hide Split, Parse;
    var _, parsed := ParseVersion(text);
    valid := parsed;
    var parts := Split(text);
    for n := 0 to |parts|
      invariant valid <==> parsed && forall i :: 0 <= i < n ==> |parts[i]| <= 9 && AllDigits(parts[i])
    {
      if |parts[n]| > 9 || !AllDigits(parts[n]) {
        valid := false;
      }
    }
  }

  lemma PrintedIsReleasable(t: Triple)
    requires InRange(t)
    ensures Parse(Print3(t)) == Some(t) && ReleasableLabel(Print3(t))
  {
    hide Split, Parse, Print3, Print, Pow10, Trim;
    PrintParse(t);
    SplitPrinted(t);
    PowNine();
    PrintLength(t.major, 9);
    PrintLength(t.minor, 9);
    PrintLength(t.patch, 9);
  }

  /** A releasable label without surrounding space counts. */
  lemma ReleasableCounts(text: string)
    requires ReleasableLabel(text) && Trim(text) == text
    ensures Counts(text) && !TooLong(text)
  {
    hide Parse, Split, Trim;
  }

  lemma PowNine()
    ensures Pow10(9) == LIMIT
  {
    assert Pow10(3) == 1000;
    assert Pow10(6) == 1000000;
  }

  /** Nothing follows: a label is too long to count, or the greatest is one of the last two. */
  ghost predicate Exhausted(id: string, current: Option<string>, versions: seq<Version>, releases: seq<Release>) {
    exists text :: Carried(id, current, versions, releases, text)
      && (TooLong(text) || (Counts(text) && Parse(text).Some? && Rank(Parse(text).value) + 2 >= LIMIT * LIMIT * LIMIT))
  }

  /** The label is 1.0.0 when no label counts, and otherwise the one right after the greatest. */
  ghost predicate IsNext(id: string, current: Option<string>, versions: seq<Version>, releases: seq<Release>, t: Triple) {
    if exists text :: Carried(id, current, versions, releases, text) && Counts(text)
    then exists text :: Carried(id, current, versions, releases, text) && Counts(text)
           && Rank(t) == Rank(Parse(text).value) + 1
           && forall other :: Carried(id, current, versions, releases, other) && Counts(other) ==> !Less(Parse(text).value, Parse(other).value)
    else t == Triple(1, 0, 0)
  }

  lemma HighestInRange(labels: seq<string>, scan: Scan)
    requires Scanned(labels, scan)
    ensures InRange(scan.highest)
  {
    if scan.found {
      var i :| 0 <= i < |labels| && Counts(labels[i]) && Parse(labels[i]) == Some(scan.highest);
      CountsInRange(labels[i]);
    }
  }

  /** With valid labels, exhaustion is about the greatest alone. */
  lemma ExhaustedMeans(labels: seq<string>, scan: Scan, id: string, current: Option<string>, versions: seq<Version>, releases: seq<Release>)
    requires Scanned(labels, scan) && Gathered(labels, id, current, versions, releases)
    ensures Exhausted(id, current, versions, releases) <==> !scan.valid || (scan.found && Rank(scan.highest) + 2 >= LIMIT * LIMIT * LIMIT)
  {
    hide Counts, TooLong, Parse, Less, Rank, Carried;
    HighestInRange(labels, scan);
    if Exhausted(id, current, versions, releases) {
      var text :| Carried(id, current, versions, releases, text)
        && (TooLong(text) || (Counts(text) && Parse(text).Some? && Rank(Parse(text).value) + 2 >= LIMIT * LIMIT * LIMIT));
      var i :| 0 <= i < |labels| && labels[i] == text;
      if !TooLong(text) {
        CountsInRange(text);
        RankOrders(scan.highest, Parse(text).value);
      }
    }
    if !scan.valid {
      var i :| 0 <= i < |labels| && TooLong(labels[i]);
      assert Carried(id, current, versions, releases, labels[i]);
    } else if scan.found {
      var i :| 0 <= i < |labels| && Counts(labels[i]) && Parse(labels[i]) == Some(scan.highest);
      assert Carried(id, current, versions, releases, labels[i]);
    }
  }

  lemma CountsIsParsed(text: string)
    requires Counts(text)
    ensures Parse(text).Some?
  {
  }

  lemma NextMeans(labels: seq<string>, scan: Scan, id: string, current: Option<string>, versions: seq<Version>, releases: seq<Release>, t: Triple)
    requires Scanned(labels, scan) && Gathered(labels, id, current, versions, releases)
    requires if scan.found then Rank(t) == Rank(scan.highest) + 1 else t == Triple(1, 0, 0)
    ensures IsNext(id, current, versions, releases, t)
  {
    hide Counts, TooLong, Parse, Less, Rank, Carried;
    if scan.found {
      var i :| 0 <= i < |labels| && Counts(labels[i]) && Parse(labels[i]) == Some(scan.highest);
      assert Carried(id, current, versions, releases, labels[i]);
      forall other | Carried(id, current, versions, releases, other) && Counts(other)
        ensures Parse(other).Some? && !Less(scan.highest, Parse(other).value)
      {
        CountsIsParsed(other);
        var j :| 0 <= j < |labels| && labels[j] == other;
      }
    }
  }

  /** internal/migration/policy.go:71-132 */
  method NextLabel(id: string, current: Option<string>, versions: seq<Version>, releases: seq<Release>) returns (r: string)
    ensures r == "" <==> Exhausted(id, current, versions, releases)
    ensures r != "" ==> ReleasableLabel(r) && IsNext(id, current, versions, releases, Parse(r).value)
    ensures r != "" ==> forall text :: Carried(id, current, versions, releases, text) ==> VersionAdvanced(text, r)
  {
    hide Exhausted, IsNext, Scanned, Gathered, VersionAdvanced, ReleasableLabel, Carried, Rank, Parse, Print3;
    var scan;
    ghost var labels;
    scan, labels := ScanHistory(id, current, versions, releases);
    ExhaustedMeans(labels, scan, id, current, versions, releases);
    if !scan.valid {
      return "";
    }
    HighestInRange(labels, scan);
    var next := Some(Triple(1, 0, 0));
    if scan.found {
      next := Successor(scan.highest);
      if next.None? {
        return "";
      }
    }
    r := Print3(next.value);
    PrintedIsReleasable(next.value);
    PrintedNotEmpty(next.value);
    NextMeans(labels, scan, id, current, versions, releases, next.value);
    forall text | Carried(id, current, versions, releases, text)
      ensures VersionAdvanced(text, r)
    {
      NextAdvances(labels, scan, id, current, versions, releases, next.value, text);
    }
  }

  lemma PrintedNotEmpty(t: Triple)
    ensures Print3(t) != ""
  {
  }

  /** Every label ever carried is below the next one. */
  lemma NextAdvances(labels: seq<string>, scan: Scan, id: string, current: Option<string>, versions: seq<Version>, releases: seq<Release>, t: Triple, text: string)
    requires Scanned(labels, scan) && Gathered(labels, id, current, versions, releases) && scan.valid
    requires InRange(t) && if scan.found then Rank(t) == Rank(scan.highest) + 1 else t == Triple(1, 0, 0)
    requires Carried(id, current, versions, releases, text)
    ensures VersionAdvanced(text, Print3(t))
  {
    hide TooLong, Counts, Parse, Rank, VersionAdvanced, Carried, Print3;
    PrintedIsReleasable(t);
    AdvancedMeans(text, Print3(t));
    HighestInRange(labels, scan);
    LabelKinds(text);
    var i :| 0 <= i < |labels| && labels[i] == text;
    if Parse(text).Some? {
      assert Counts(labels[i]);
      CountsInRange(text);
      RankOrders(scan.highest, Parse(text).value);
      RankOrders(Parse(text).value, t);
    }
  }
}
