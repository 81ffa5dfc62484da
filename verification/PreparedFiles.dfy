/** Laying out the files of a planned resource, internal/migration/plan.go:573-687, and the
    check before anything is published, internal/migration/objects.go:157-242. */
module PreparedFiles {
  import opened Options

  type Bytes = seq<bv8>

  /** Where stored files of a resource live: the platform or one Space. */
  datatype Scope = Platform(resource: string) | Space(space: string)

  /** The key of a stored file: its scope and the digest of its content. */
  datatype Key = Key(scope: Scope, digest: string)

  datatype File = File(path: string, mime: string, data: Bytes, objectKey: Option<Key>)

  datatype Attachment =
    | RawAttachment(path: string, mime: string, content: Bytes)
    | StoredAttachment(path: string, mime: string, size: nat, hash: string)

  datatype Artifact = Artifact(path: string, stored: bool, size: nat, digest: string, key: Option<Key>)

  /** What the layout leaves to others: the length of the content as a JSON string, whether
      it is text, its digest, whether a path is a clean relative path, the media type of a
      declared one, the length of the finished package and whether its documents are valid. */
  datatype Oracles = Oracles(
    quoted: Bytes -> nat,
    isText: Bytes -> bool,
    digest: Bytes -> string,
    cleanPath: string -> bool,
    mediaType: string -> Option<string>,
    packageLength: seq<Attachment> -> nat,
    documentsValid: seq<Attachment> -> bool)

  const MAX_FILES := 4096
  const MAX_FILE_BYTES := 20 * 0x10_0000
  const MAX_TOTAL_BYTES := 100 * 0x10_0000
  const MAX_INLINE := 0x10_0000
  const SPILL := 768 * 0x400
  const RESERVE := 4096
  const PER_FILE := 512

  datatype Layout = Layout(files: seq<File>, attachments: seq<Attachment>, side: map<string, Key>, artifacts: seq<Artifact>)

  // ------------------------------------------------------------ specification

  ghost predicate DistinctPaths(files: seq<File>) {
    forall i, j :: 0 <= i < j < |files| ==> files[i].path != files[j].path
  }

  /** One file, its attachment and its artifact agree: inline or stored, never both. */
  predicate Agree(o: Oracles, scope: Option<Scope>, f: File, a: Attachment, r: Artifact) {
    && a.path == f.path && a.mime == f.mime && r.path == f.path
    && r.size == |f.data| && r.digest == o.digest(f.data) && r.key == f.objectKey
    && match f.objectKey
       case None => a.RawAttachment? && a.content == f.data && !r.stored
       case Some(key) =>
         && a.StoredAttachment? && a.size == |f.data| && a.hash == o.digest(f.data) && r.stored
         && scope.Some? && key == Key(scope.value, o.digest(f.data))
  }

  /** The lists run in parallel. */
  ghost predicate AllAgree(o: Oracles, scope: Option<Scope>, l: Layout) {
    && |l.attachments| == |l.files| && |l.artifacts| == |l.files|
    && forall i :: 0 <= i < |l.files| ==> Agree(o, scope, l.files[i], l.attachments[i], l.artifacts[i])
  }

  /** The sidecar names the stored files and no others. */
  ghost predicate SideAgrees(files: seq<File>, side: map<string, Key>) {
    && (forall i :: 0 <= i < |files| && files[i].objectKey.Some? ==> files[i].path in side && side[files[i].path] == files[i].objectKey.value)
    && (forall p :: p in side ==> exists i :: 0 <= i < |files| && files[i].path == p && files[i].objectKey.Some?)
  }

  ghost predicate Aligned(o: Oracles, scope: Option<Scope>, l: Layout) {
    DistinctPaths(l.files) && AllAgree(o, scope, l) && SideAgrees(l.files, l.side)
  }

  /** What a file takes of the inline budget. */
  function InlineCost(o: Oracles, entry: string, f: File): nat {
    if f.path == entry then o.quoted(f.data) else if f.objectKey.None? then o.quoted(f.data) + PER_FILE else 0
  }

  function InlineTotal(o: Oracles, entry: string, files: seq<File>): nat {
    if files == [] then 0 else InlineTotal(o, entry, files[..|files| - 1]) + InlineCost(o, entry, files[|files| - 1])
  }

  ghost predicate OthersInline(entry: string, files: seq<File>) {
    exists i :: 0 <= i < |files| && files[i].path != entry && files[i].objectKey.None?
  }

  /** The same files with the same content, media types settled. */
  ghost predicate SameFiles(o: Oracles, before: seq<File>, after: seq<File>) {
    && |after| == |before|
    && forall i :: 0 <= i < |before| ==> after[i].path == before[i].path && after[i].data == before[i].data
  }

  ghost predicate EntryInline(entry: string, files: seq<File>) {
    forall i :: 0 <= i < |files| && files[i].path == entry ==> files[i].objectKey.None?
  }

  // ------------------------------------------------------------ the first pass

  function EntryCost(o: Oracles, entry: string, files: seq<File>): nat {
    if files == [] then 0
    else
      var f := files[|files| - 1];
      EntryCost(o, entry, files[..|files| - 1]) + if f.path == entry then o.quoted(f.data) else 0
  }

  function TotalBytes(files: seq<File>): nat {
    if files == [] then 0 else TotalBytes(files[..|files| - 1]) + |files[|files| - 1].data|
  }

  ghost predicate HasEntry(entry: string, files: seq<File>) {
    exists i :: 0 <= i < |files| && files[i].path == entry
  }

  /** The files fit: each of them, all of them, and the entry in the inline budget. */
  ghost predicate Fits(o: Oracles, entry: string, overhead: nat, files: seq<File>) {
    && (forall i :: 0 <= i < |files| ==> |files[i].data| <= MAX_FILE_BYTES)
    && TotalBytes(files) <= MAX_TOTAL_BYTES
    && (HasEntry(entry, files) ==> overhead + RESERVE + EntryCost(o, entry, files) <= MAX_INLINE)
  }

  lemma {:induction false} EntryCostGrows(o: Oracles, entry: string, files: seq<File>, n: nat)
    requires n <= |files|
    ensures EntryCost(o, entry, files[..n]) <= EntryCost(o, entry, files)
  {
    if n < |files| {
      var m := |files| - 1;
      EntryCostGrows(o, entry, files[..m], n);
      assert files[..m][..n] == files[..n];
    } else {
      assert files[..n] == files;
    }
  }

  lemma HasEntryStep(entry: string, files: seq<File>, n: nat)
    requires n < |files|
    ensures HasEntry(entry, files[..n + 1]) <==> HasEntry(entry, files[..n]) || files[n].path == entry
  {
    var before, after := files[..n], files[..n + 1];
    assert after[n] == files[n] && forall i :: 0 <= i < n ==> after[i] == before[i];
    if HasEntry(entry, before) {
      var i :| 0 <= i < n && before[i].path == entry;
      assert after[i].path == entry;
    } else if files[n].path == entry {
      assert after[n].path == entry;
    }
  }

  /** Lines 598-613: sizes, and the entry's share of the inline budget. */
  method Measure(o: Oracles, entry: string, overhead: nat, files: seq<File>) returns (inlineUsed: nat, ok: bool)
    ensures ok <==> Fits(o, entry, overhead, files)
    ensures ok ==> inlineUsed == overhead + RESERVE + EntryCost(o, entry, files)
  {
    inlineUsed := overhead + RESERVE;
    var total := 0;
    for n := 0 to |files|
      invariant inlineUsed == overhead + RESERVE + EntryCost(o, entry, files[..n])
      invariant HasEntry(entry, files[..n]) ==> inlineUsed <= MAX_INLINE
      invariant total == TotalBytes(files[..n])
      invariant forall i :: 0 <= i < n ==> |files[i].data| <= MAX_FILE_BYTES
    {
      assert files[..n + 1][..n] == files[..n];
      total := total + |files[n].data|;
      if |files[n].data| > MAX_FILE_BYTES {
        return inlineUsed, false;
      }
      if files[n].path == entry {
        inlineUsed := inlineUsed + o.quoted(files[n].data);
        if inlineUsed > MAX_INLINE {
          EntryCostGrows(o, entry, files, n + 1);
          return inlineUsed, false;
        }
      }
      HasEntryStep(entry, files, n);
    }
    assert files[..|files|] == files;
    ok := total <= MAX_TOTAL_BYTES;
  }

  // ----------------------------------------------------------- the second pass

  /** Media types that may stay inline. */
  predicate Textual(mime: string) {
    (|mime| >= 5 && mime[..5] == "text/") || mime == "application/json" || mime == ""
  }

  /** Inline or stored, lines 638-640. */
  predicate Spills(o: Oracles, entry: string, f: File, mime: string, inlineUsed: nat) {
    || (f.path != entry && inlineUsed + o.quoted(f.data) + PER_FILE > SPILL)
    || !o.isText(f.data) || |f.data| > MAX_INLINE || !Textual(mime)
  }

  /** What is known after some of the files: the layout so far, and the budget so far. */
  ghost predicate LaidOut(o: Oracles, entry: string, scope: Option<Scope>, start: nat, l: Layout, inlineUsed: nat) {
    && Aligned(o, scope, l) && EntryInline(entry, l.files)
    && inlineUsed == start + OtherCost(o, entry, l.files)
    && (OthersInline(entry, l.files) ==> inlineUsed <= SPILL)
  }

  function OtherCost(o: Oracles, entry: string, files: seq<File>): nat {
    if files == [] then 0
    else
      var f := files[|files| - 1];
      OtherCost(o, entry, files[..|files| - 1]) + if f.path != entry && f.objectKey.None? then o.quoted(f.data) + PER_FILE else 0
  }

  lemma {:induction false} CostsAdd(o: Oracles, entry: string, before: seq<File>, after: seq<File>)
    requires SameFiles(o, before, after)
    ensures InlineTotal(o, entry, after) == EntryCost(o, entry, before) + OtherCost(o, entry, after)
  {
    if after != [] {
      var n := |after| - 1;
      assert SameFiles(o, before[..n], after[..n]);
      CostsAdd(o, entry, before[..n], after[..n]);
    }
  }

  function Extended(l: Layout, f: File, a: Attachment, r: Artifact): Layout {
    Layout(l.files + [f], l.attachments + [a], if f.objectKey.Some? then l.side[f.path := f.objectKey.value] else l.side, l.artifacts + [r])
  }

  lemma AgreeStep(o: Oracles, scope: Option<Scope>, l: Layout, f: File, a: Attachment, r: Artifact)
    requires AllAgree(o, scope, l) && Agree(o, scope, f, a, r)
    ensures AllAgree(o, scope, Extended(l, f, a, r))
  {
    hide Agree;
    var n, e := |l.files|, Extended(l, f, a, r);
    forall i | 0 <= i < |e.files|
      ensures Agree(o, scope, e.files[i], e.attachments[i], e.artifacts[i])
    {
      if i < n {
        assert e.files[i] == l.files[i] && e.attachments[i] == l.attachments[i] && e.artifacts[i] == l.artifacts[i];
      }
    }
  }

  lemma SideStep(files: seq<File>, side: map<string, Key>, f: File)
    requires SideAgrees(files, side) && forall i :: 0 <= i < |files| ==> files[i].path != f.path
    ensures SideAgrees(files + [f], if f.objectKey.Some? then side[f.path := f.objectKey.value] else side)
  {
    var all, side' := files + [f], if f.objectKey.Some? then side[f.path := f.objectKey.value] else side;
    assert all[|files|] == f && forall i :: 0 <= i < |files| ==> all[i] == files[i];
    forall p | p in side'
      ensures exists i :: 0 <= i < |all| && all[i].path == p && all[i].objectKey.Some?
    {
      if f.objectKey.Some? && p == f.path {
        assert all[|files|].path == p;
      } else {
        var i :| 0 <= i < |files| && files[i].path == p && files[i].objectKey.Some?;
        assert all[i].path == p;
      }
    }
  }

  lemma AlignedStep(o: Oracles, scope: Option<Scope>, l: Layout, f: File, a: Attachment, r: Artifact)
    requires Aligned(o, scope, l) && Agree(o, scope, f, a, r)
    requires forall i :: 0 <= i < |l.files| ==> l.files[i].path != f.path
    ensures Aligned(o, scope, Extended(l, f, a, r))
  {
    hide Agree, AllAgree, SideAgrees;
    AgreeStep(o, scope, l, f, a, r);
    SideStep(l.files, l.side, f);
  }

  lemma LaidOutStep(o: Oracles, entry: string, scope: Option<Scope>, start: nat, l: Layout, inlineUsed: nat, f: File, a: Attachment, r: Artifact, used: nat)
    requires LaidOut(o, entry, scope, start, l, inlineUsed) && Agree(o, scope, f, a, r)
    requires forall i :: 0 <= i < |l.files| ==> l.files[i].path != f.path
    requires f.path == entry ==> f.objectKey.None? && used == inlineUsed
    requires f.path != entry && f.objectKey.None? ==> used == inlineUsed + o.quoted(f.data) + PER_FILE && used <= SPILL
    requires f.path != entry && f.objectKey.Some? ==> used == inlineUsed
    ensures LaidOut(o, entry, scope, start, Extended(l, f, a, r), used)
  {
    hide Agree, Aligned;
    AlignedStep(o, scope, l, f, a, r);
    var n, e := |l.files|, Extended(l, f, a, r);
    assert e.files[..n] == l.files && e.files[n] == f;
    assert forall i :: 0 <= i < n ==> e.files[i] == l.files[i];
    if OthersInline(entry, e.files) && !(f.path != entry && f.objectKey.None?) {
      var i :| 0 <= i < |e.files| && e.files[i].path != entry && e.files[i].objectKey.None?;
      assert i < n && l.files[i].path != entry;
    }
  }

  function Declared(o: Oracles, f: File): string {
    if f.mime != "" then f.mime else if o.isText(f.data) then "text/plain" else "application/octet-stream"
  }

  /** A file that can be laid out wherever it is placed: its media type is known, and the
      entry can stay inline. */
  predicate Placeable(o: Oracles, entry: string, f: File) {
    && o.mediaType(Declared(o, f)).Some?
    && (f.path == entry ==> o.isText(f.data) && |f.data| <= MAX_INLINE && Textual(o.mediaType(Declared(o, f)).value))
  }

  /** Lines 618-661, for one file. */
  method LayOut(o: Oracles, entry: string, scope: Option<Scope>, ghost start: nat, l: Layout, inlineUsed: nat, f: File)
    returns (l': Layout, used: nat, ok: bool)
    requires LaidOut(o, entry, scope, start, l, inlineUsed)
    requires forall i :: 0 <= i < |l.files| ==> l.files[i].path != f.path
    ensures ok ==> LaidOut(o, entry, scope, start, l', used)
    ensures ok ==> exists g :: l'.files == l.files + [g] && g.path == f.path && g.data == f.data
    ensures ok ==> Placeable(o, entry, f)
    ensures !ok ==> !Placeable(o, entry, f) || scope.None?
  {
    hide LaidOut, Textual;
    l', used := l, inlineUsed;
    var media := o.mediaType(Declared(o, f));
    if media.None? {
      return l', used, false;
    }
    var mime, h := media.value, o.digest(f.data);
    var g, a, r;
    if Spills(o, entry, f, mime, inlineUsed) {
      if f.path == entry || scope.None? {
        return l', used, false;
      }
      var key := Key(scope.value, h);
      g := File(f.path, mime, f.data, Some(key));
      a := StoredAttachment(f.path, mime, |f.data|, h);
      r := Artifact(f.path, true, |f.data|, h, Some(key));
    } else {
      g := File(f.path, mime, f.data, None);
      a := RawAttachment(f.path, mime, f.data);
      r := Artifact(f.path, false, |f.data|, h, None);
      if f.path != entry {
        used := used + o.quoted(f.data) + PER_FILE;
      }
    }
    LaidOutStep(o, entry, scope, start, l, inlineUsed, g, a, r, used);
    l' := Extended(l, g, a, r);
    ok := true;
  }

  lemma NothingLaidOut(o: Oracles, entry: string, scope: Option<Scope>, start: nat, files: seq<File>)
    ensures LaidOut(o, entry, scope, start, Layout([], [], map[], []), start)
    ensures SameFiles(o, files[..0], [])
  {
  }

  /** The files are acceptable one by one and together. */
  ghost predicate Sound(o: Oracles, entry: string, overhead: nat, files: seq<File>) {
    && Fits(o, entry, overhead, files) && DistinctPaths(files)
    && forall i :: 0 <= i < |files| ==> o.cleanPath(files[i].path) && Placeable(o, entry, files[i])
  }

  /** internal/migration/plan.go:573-687. On success every file is inline or stored but not
      both, the entry is inline, all lists agree, and the inline content is within budget. */
  method PrepareFiles(o: Oracles, entry: string, scope: Option<Scope>, overhead: nat, files: seq<File>) returns (l: Layout, ok: bool)
    ensures ok ==> Aligned(o, scope, l) && SameFiles(o, files, l.files) && EntryInline(entry, l.files)
    ensures ok ==> OthersInline(entry, l.files) ==> overhead + RESERVE + InlineTotal(o, entry, l.files) <= SPILL
    ensures ok ==> 0 < |files| <= MAX_FILES && Sound(o, entry, overhead, files)
    ensures ok ==> o.packageLength(l.attachments) <= MAX_INLINE && o.documentsValid(l.attachments)
    ensures !ok ==> || files == [] || |files| > MAX_FILES || !Sound(o, entry, overhead, files) || scope.None?
                    || o.packageLength(l.attachments) > MAX_INLINE || !o.documentsValid(l.attachments)
  {
    hide LaidOut, Aligned, EntryInline, OthersInline, EntryCost, OtherCost, InlineTotal, Fits, Placeable;
    l := Layout([], [], map[], []);
    if files == [] || |files| > MAX_FILES {
      return l, false;
    }
    var inlineUsed, good := Measure(o, entry, overhead, files);
    if !good {
      return l, false;
    }
    var seen: set<string> := {};
    ghost var start := inlineUsed;
    NothingLaidOut(o, entry, scope, start, files);
    for n := 0 to |files|
      invariant LaidOut(o, entry, scope, start, l, inlineUsed)
      invariant |l.files| == n && forall i :: 0 <= i < n ==> l.files[i].path == files[i].path && l.files[i].data == files[i].data
      invariant seen == set i | 0 <= i < n :: files[i].path
      invariant forall i :: 0 <= i < n ==> o.cleanPath(files[i].path) && Placeable(o, entry, files[i])
      invariant forall i, j :: 0 <= i < j < n ==> files[i].path != files[j].path
    {
      if !o.cleanPath(files[n].path) || files[n].path in seen {
        return l, false;
      }
      seen := seen + {files[n].path};
      l, inlineUsed, good := LayOut(o, entry, scope, start, l, inlineUsed, files[n]);
      if !good {
        return l, false;
      }
    }
    LaidOutParts(o, entry, scope, start, l, inlineUsed);
    CostsAdd(o, entry, files, l.files);
    ok := o.packageLength(l.attachments) <= MAX_INLINE && o.documentsValid(l.attachments);
  }

  lemma LaidOutParts(o: Oracles, entry: string, scope: Option<Scope>, start: nat, l: Layout, inlineUsed: nat)
    requires LaidOut(o, entry, scope, start, l, inlineUsed)
    ensures Aligned(o, scope, l) && EntryInline(entry, l.files) && inlineUsed == start + OtherCost(o, entry, l.files)
    ensures OthersInline(entry, l.files) ==> inlineUsed <= SPILL
  {
  }

  // ------------------------------------------------- the check before publishing

  ghost predicate DistinctArtifacts(rs: seq<Artifact>) {
    forall i, j :: 0 <= i < j < |rs| ==> rs[i].path != rs[j].path
  }

  ghost predicate DistinctAttachments(rs: seq<Attachment>) {
    forall i, j :: 0 <= i < j < |rs| ==> rs[i].path != rs[j].path
  }

  /** A stored file has its artifact, its attachment and its sidecar entry, all agreeing. */
  ghost predicate Backed(o: Oracles, scope: Option<Scope>, l: Layout, f: File)
    requires f.objectKey.Some?
  {
    && scope.Some? && f.objectKey.value == Key(scope.value, o.digest(f.data))
    && (exists i :: 0 <= i < |l.artifacts| && l.artifacts[i] == Artifact(f.path, true, |f.data|, o.digest(f.data), f.objectKey))
    && (exists i :: 0 <= i < |l.attachments| && StoresFile(o, l.attachments[i], f))
    && f.path in l.side && l.side[f.path] == f.objectKey.value
  }

  predicate StoresFile(o: Oracles, a: Attachment, f: File) {
    a.StoredAttachment? && a.path == f.path && a.size == |f.data| && a.hash == o.digest(f.data)
  }

  /** What publishing demands of a node's files and metadata. */
  ghost predicate Publishable(o: Oracles, scope: Option<Scope>, l: Layout) {
    && DistinctArtifacts(l.artifacts) && DistinctAttachments(l.attachments) && DistinctPaths(l.files)
    && (forall i :: 0 <= i < |l.files| && l.files[i].objectKey.Some? ==> Backed(o, scope, l, l.files[i]))
    && (forall i :: 0 <= i < |l.artifacts| && l.artifacts[i].stored ==>
          exists k :: 0 <= k < |l.files| && l.files[k].path == l.artifacts[i].path && l.files[k].objectKey.Some?)
  }

  /** Every layout that was prepared can be published. */
  lemma PreparedIsPublishable(o: Oracles, scope: Option<Scope>, l: Layout)
    requires Aligned(o, scope, l)
    ensures Publishable(o, scope, l)
  {
    forall i | 0 <= i < |l.files|
      ensures l.attachments[i].path == l.files[i].path && l.artifacts[i].path == l.files[i].path
    {
      assert Agree(o, scope, l.files[i], l.attachments[i], l.artifacts[i]);
    }
    forall i | 0 <= i < |l.files| && l.files[i].objectKey.Some?
      ensures Backed(o, scope, l, l.files[i])
    {
      assert Agree(o, scope, l.files[i], l.attachments[i], l.artifacts[i]);
      assert StoresFile(o, l.attachments[i], l.files[i]);
    }
    forall i | 0 <= i < |l.artifacts| && l.artifacts[i].stored
      ensures exists k :: 0 <= k < |l.files| && l.files[k].path == l.artifacts[i].path && l.files[k].objectKey.Some?
    {
      assert Agree(o, scope, l.files[i], l.attachments[i], l.artifacts[i]);
    }
  }

  function StoredFiles(files: seq<File>): seq<File> {
    if files == [] then []
    else StoredFiles(files[..|files| - 1]) + if files[|files| - 1].objectKey.Some? then [files[|files| - 1]] else []
  }

  ghost predicate ArtifactsIndexed(rs: seq<Artifact>, byPath: map<string, int>) {
    && (forall p :: p in byPath ==> 0 <= byPath[p] < |rs| && rs[byPath[p]].path == p)
    && (forall i :: 0 <= i < |rs| ==> rs[i].path in byPath)
  }

  method IndexArtifacts(rs: seq<Artifact>) returns (byPath: map<string, int>, ok: bool)
    ensures ok <==> DistinctArtifacts(rs)
    ensures ok ==> ArtifactsIndexed(rs, byPath)
  {
    byPath := map[];
    for n := 0 to |rs|
      invariant forall i, j :: 0 <= i < j < n ==> rs[i].path != rs[j].path
      invariant forall p :: p in byPath ==> 0 <= byPath[p] < n && rs[byPath[p]].path == p
      invariant forall i :: 0 <= i < n ==> rs[i].path in byPath
    {
      if rs[n].path in byPath {
        return byPath, false;
      }
      byPath := byPath[rs[n].path := n];
    }
    ok := true;
  }

  ghost predicate AttachmentsIndexed(rs: seq<Attachment>, byPath: map<string, int>) {
    && (forall p :: p in byPath ==> 0 <= byPath[p] < |rs| && rs[byPath[p]].path == p)
    && (forall i :: 0 <= i < |rs| ==> rs[i].path in byPath)
  }

  method IndexAttachments(rs: seq<Attachment>) returns (byPath: map<string, int>, ok: bool)
    ensures ok <==> DistinctAttachments(rs)
    ensures ok ==> AttachmentsIndexed(rs, byPath)
  {
    byPath := map[];
    for n := 0 to |rs|
      invariant forall i, j :: 0 <= i < j < n ==> rs[i].path != rs[j].path
      invariant forall p :: p in byPath ==> 0 <= byPath[p] < n && rs[byPath[p]].path == p
      invariant forall i :: 0 <= i < n ==> rs[i].path in byPath
    {
      if rs[n].path in byPath {
        return byPath, false;
      }
      byPath := byPath[rs[n].path := n];
    }
    ok := true;
  }

  /** Lines 202-227, for one stored file. */
  method CheckStored(o: Oracles, scope: Option<Scope>, l: Layout, f: File, artifacts: map<string, int>, attachments: map<string, int>) returns (ok: bool)
    requires f.objectKey.Some? && DistinctArtifacts(l.artifacts) && DistinctAttachments(l.attachments)
    requires ArtifactsIndexed(l.artifacts, artifacts) && AttachmentsIndexed(l.attachments, attachments)
    ensures ok <==> Backed(o, scope, l, f)
  {
    var h := o.digest(f.data);
    if scope.None? || f.objectKey != Some(Key(scope.value, h)) {
      return false;
    }
    if f.path !in artifacts || f.path !in attachments {
      return false;
    }
    var a, t := l.artifacts[artifacts[f.path]], l.attachments[attachments[f.path]];
    ok := a.stored && a.key == f.objectKey && a.size == |f.data| && a.digest == h
          && f.path in l.side && l.side[f.path] == f.objectKey.value
          && t.StoredAttachment? && t.size == |f.data| && t.hash == h;
    if Backed(o, scope, l, f) {
      var i :| 0 <= i < |l.artifacts| && l.artifacts[i] == Artifact(f.path, true, |f.data|, h, f.objectKey);
      assert i == artifacts[f.path];
      var j :| 0 <= j < |l.attachments| && StoresFile(o, l.attachments[j], f);
      assert j == attachments[f.path];
    }
    if ok {
      assert a == Artifact(f.path, true, |f.data|, h, f.objectKey) && StoresFile(o, t, f);
    }
  }

  /** Lines 195-230: the files one by one. */
  method CheckFiles(o: Oracles, scope: Option<Scope>, l: Layout, artifacts: map<string, int>, attachments: map<string, int>)
    returns (files: seq<File>, stored: set<string>, ok: bool)
    requires DistinctArtifacts(l.artifacts) && DistinctAttachments(l.attachments)
    requires ArtifactsIndexed(l.artifacts, artifacts) && AttachmentsIndexed(l.attachments, attachments)
    ensures ok <==> DistinctPaths(l.files) && forall i :: 0 <= i < |l.files| && l.files[i].objectKey.Some? ==> Backed(o, scope, l, l.files[i])
    ensures ok ==> files == StoredFiles(l.files)
    ensures ok ==> forall p :: p in stored <==> exists i :: 0 <= i < |l.files| && l.files[i].path == p && l.files[i].objectKey.Some?
  {
    hide Backed, ArtifactsIndexed, AttachmentsIndexed, DistinctArtifacts, DistinctAttachments;
    files := [];
    var seen: set<string> := {};
    stored := {};
    for n := 0 to |l.files|
      invariant forall i, j :: 0 <= i < j < n ==> l.files[i].path != l.files[j].path
      invariant forall p :: p in seen <==> exists i :: 0 <= i < n && l.files[i].path == p
      invariant forall p :: p in stored <==> exists i :: 0 <= i < n && l.files[i].path == p && l.files[i].objectKey.Some?
      invariant forall i :: 0 <= i < n && l.files[i].objectKey.Some? ==> Backed(o, scope, l, l.files[i])
      invariant files == StoredFiles(l.files[..n])
    {
      var f := l.files[n];
      assert l.files[..n + 1][..n] == l.files[..n];
      if f.path in seen {
        return files, stored, false;
      }
      seen := seen + {f.path};
      if f.objectKey.Some? {
        var good := CheckStored(o, scope, l, f, artifacts, attachments);
        if !good {
          return files, stored, false;
        }
        stored := stored + {f.path};
        files := files + [f];
      }
    }
    assert l.files[..|l.files|] == l.files;
    ok := true;
  }

  /** internal/migration/objects.go:166-238, for one node: the files to publish, or a refusal. */
  method PlannedObjects(o: Oracles, scope: Option<Scope>, l: Layout) returns (files: seq<File>, ok: bool)
    ensures ok <==> Publishable(o, scope, l)
    ensures ok ==> files == StoredFiles(l.files)
  {
    hide Backed, ArtifactsIndexed, AttachmentsIndexed, DistinctArtifacts, DistinctAttachments, DistinctPaths, StoredFiles;
    files := [];
    var artifacts, attachments;
    artifacts, ok := IndexArtifacts(l.artifacts);
    if !ok {
      return files, false;
    }
    attachments, ok := IndexAttachments(l.attachments);
    if !ok {
      return files, false;
    }
    var stored;
    files, stored, ok := CheckFiles(o, scope, l, artifacts, attachments);
    if !ok {
      return files, false;
    }
    for n := 0 to |l.artifacts|
      invariant forall i :: 0 <= i < n && l.artifacts[i].stored ==> l.artifacts[i].path in stored
    {
      if l.artifacts[n].stored && l.artifacts[n].path !in stored {
        return files, false;
      }
    }
    ok := true;
  }
}
