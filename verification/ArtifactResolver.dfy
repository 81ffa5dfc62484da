/** Reading the source files of a resource within a budget, internal/migration/artifacts/resolve.go:102-440. */
module ArtifactResolver {
  import opened Options

  type Bytes = seq<bv8>

  datatype Limits = Limits(maxFiles: nat, maxFileBytes: nat, maxTotalBytes: nat, maxArchiveBytes: nat)

  datatype File = File(path: string, mime: string, data: Bytes)

  /** One successful read from the object store. */
  datatype Fetch = Fetch(key: string, data: Bytes)

  datatype Content = Raw(data: Bytes) | Storage(key: string, size: nat, hash: string) | OtherType

  datatype Attachment = Attachment(path: string, mime: string, content: Content)

  /** A statement about an object that must hold of what is read. */
  datatype Assertion = Assertion(key: string, size: Option<nat>)

  /** What the resolver asks of its surroundings: the object reader, which may return any
      bytes or fail, which keys the resource may read, safe paths, media types, digests,
      the remaining claims of an assertion, and unpacking (names sorted and below the root). */
  datatype Oracles = Oracles(
    read: (string, nat) -> Option<Bytes>,
    allowed: string -> bool,
    safePath: string -> bool,
    mimeOf: (string, Bytes) -> string,
    compatible: (string, string) -> bool,
    hash: Bytes -> string,
    holds: (Assertion, Bytes) -> bool,
    unpack: Bytes -> Option<seq<(string, Bytes)>>,
    usable: Bytes -> bool)

  /** A resource to read: the archive it may have, and an object replacing its entry. */
  datatype Source = Source(
    skill: bool,
    connector: bool,
    attachments: seq<Attachment>,
    assertions: seq<Assertion>,
    zipAttachment: Option<Attachment>,
    zipKey: Option<string>,
    entryKey: Option<string>,
    icon: Option<string>)

  const SKILL_MD := "SKILL.md"
  const REF_JSON := "skill/ref.json"
  const PACKAGE_ZIP := "skill/package.zip"

  // -------------------------------------------------------------------- totals

  function FetchedBytes(fetched: seq<Fetch>): nat {
    if fetched == [] then 0 else FetchedBytes(fetched[..|fetched| - 1]) + |fetched[|fetched| - 1].data|
  }

  function FileBytes(files: seq<File>): nat {
    if files == [] then 0 else FileBytes(files[..|files| - 1]) + |files[|files| - 1].data|
  }

  ghost predicate DistinctKeys(fetched: seq<Fetch>) {
    forall i, j :: 0 <= i < j < |fetched| ==> fetched[i].key != fetched[j].key
  }

  ghost predicate DistinctPaths(files: seq<File>) {
    forall i, j :: 0 <= i < j < |files| ==> files[i].path != files[j].path
  }

  lemma {:induction false} ReplaceBytes(files: seq<File>, i: nat, f: File)
    requires i < |files|
    ensures FileBytes(files[i := f]) == FileBytes(files) - |files[i].data| + |f.data|
  {
    var n := |files| - 1;
    if i < n {
      ReplaceBytes(files[..n], i, f);
      assert files[i := f][..n] == files[..n][i := f];
    } else {
      assert files[i := f][..n] == files[..n];
    }
  }

  lemma {:induction false} PrefixBytes(files: seq<File>, n: nat)
    requires n <= |files|
    ensures FileBytes(files[..n]) <= FileBytes(files)
  {
    if n < |files| {
      var m := |files| - 1;
      PrefixBytes(files[..m], n);
      assert files[..m][..n] == files[..n];
    } else {
      assert files[..n] == files;
    }
  }

  /** The cache is exactly what was fetched, each key once; the running total is theirs. */
  ghost predicate CacheValid(cache: map<string, Bytes>, readBytes: nat, fetched: seq<Fetch>, limits: Limits) {
    && DistinctKeys(fetched)
    && (forall i :: 0 <= i < |fetched| ==> fetched[i].key in cache && cache[fetched[i].key] == fetched[i].data)
    && (forall k :: k in cache ==> exists i :: 0 <= i < |fetched| && fetched[i].key == k)
    && readBytes == FetchedBytes(fetched) && readBytes <= limits.maxTotalBytes
  }

  /** The files have distinct paths and their sizes, one by one and together, are in budget. */
  ghost predicate FilesValid(files: seq<File>, fileBytes: nat, limits: Limits) {
    && DistinctPaths(files) && |files| <= limits.maxFiles
    && (forall i :: 0 <= i < |files| ==> |files[i].data| <= limits.maxFileBytes)
    && fileBytes == FileBytes(files) && fileBytes <= limits.maxTotalBytes
  }

  lemma CacheStep(cache: map<string, Bytes>, readBytes: nat, fetched: seq<Fetch>, limits: Limits, key: string, data: Bytes)
    requires CacheValid(cache, readBytes, fetched, limits) && key !in cache && readBytes + |data| <= limits.maxTotalBytes
    ensures CacheValid(cache[key := data], readBytes + |data|, fetched + [Fetch(key, data)], limits)
  {
    var all := fetched + [Fetch(key, data)];
    assert all[|fetched|] == Fetch(key, data) && forall i :: 0 <= i < |fetched| ==> all[i] == fetched[i];
    assert all[..|fetched|] == fetched;
    var after := cache[key := data];
    forall k | k in after
      ensures exists i :: 0 <= i < |all| && all[i].key == k
    {
      if k == key {
        assert all[|fetched|].key == k;
      } else {
        var i :| 0 <= i < |fetched| && fetched[i].key == k;
        assert all[i].key == k;
      }
    }
  }

  lemma FilesStep(files: seq<File>, fileBytes: nat, limits: Limits, f: File)
    requires FilesValid(files, fileBytes, limits) && |files| < limits.maxFiles
    requires |f.data| <= limits.maxFileBytes && fileBytes + |f.data| <= limits.maxTotalBytes
    requires forall i :: 0 <= i < |files| ==> files[i].path != f.path
    ensures FilesValid(files + [f], fileBytes + |f.data|, limits)
  {
    var all := files + [f];
    assert all[..|files|] == files && all[|files|] == f;
    assert forall i :: 0 <= i < |files| ==> all[i] == files[i];
  }

  lemma ReplaceStep(files: seq<File>, fileBytes: nat, limits: Limits, i: nat, md: Bytes)
    requires FilesValid(files, fileBytes, limits) && i < |files|
    requires |md| <= limits.maxFileBytes && 0 <= fileBytes - |files[i].data| + |md| <= limits.maxTotalBytes
    ensures FilesValid(files[i := files[i].(data := md)], fileBytes - |files[i].data| + |md|, limits)
  {
    ReplaceBytes(files, i, files[i].(data := md));
    var after := files[i := files[i].(data := md)];
    assert forall k :: 0 <= k < |files| ==> after[k].path == files[k].path;
  }

  // ------------------------------------------------------------------ resolver

  class Resolver {
    const o: Oracles
    const limits: Limits
    const archives: set<string>
    var cache: map<string, Bytes>
    var readBytes: nat
    var files: seq<File>
    var fileBytes: nat
    ghost var fetched: seq<Fetch>

    ghost predicate Valid()
      reads this
    {
      CacheValid(cache, readBytes, fetched, limits) && FilesValid(files, fileBytes, limits)
    }

    constructor (o: Oracles, limits: Limits, archives: set<string>)
      ensures Valid() && this.limits == limits && this.o == o && files == []
    {
      this.o, this.limits, this.archives := o, limits, archives;
      cache, readBytes, files, fileBytes, fetched := map[], 0, [], 0, [];
    }

    /** Lines 190-222: every key is fetched successfully at most once, within the total. */
    method Load(key: string) returns (data: Bytes, ok: bool)
      requires Valid()
      modifies this`cache, this`readBytes, this`fetched
      ensures Valid()
      ensures ok ==> o.allowed(key) && key in cache && cache[key] == data
      ensures ok ==> fetched == if key in old(cache) then old(fetched) else old(fetched) + [Fetch(key, data)]
      ensures ok && key !in old(cache) ==> |data| <= Ceiling(limits, archives, key)
      ensures !ok ==> cache == old(cache) && fetched == old(fetched)
      ensures Keeps(old(cache), cache)
    {
      hide CacheValid, FilesValid;
      if !o.allowed(key) {
        return [], false;
      }
      if key in cache {
        return cache[key], true;
      }
      CacheBound(cache, readBytes, fetched, limits);
      var maxBytes := Ceiling(limits, archives, key);
      var remaining := limits.maxTotalBytes - readBytes;
      if remaining < maxBytes {
        maxBytes := remaining;
      }
      var reply := o.read(key, maxBytes);
      if reply.None? || |reply.value| > maxBytes {
        return [], false;
      }
      data := reply.value;
      CacheStep(cache, readBytes, fetched, limits, key, data);
      readBytes := readBytes + |data|;
      cache := cache[key := data];
      fetched := fetched + [Fetch(key, data)];
      ok := true;
    }

    /** Lines 246-269. */
    method Get(a: Attachment) returns (data: Bytes, ok: bool)
      requires Valid()
      modifies this`cache, this`readBytes, this`fetched
      ensures Valid() && old(fetched) <= fetched && Keeps(old(cache), cache)
      ensures ok ==> a.content == Raw(data) || (a.content.Storage? && |data| == a.content.size && o.allowed(a.content.key)
                     && a.content.key in cache && cache[a.content.key] == data && (a.content.hash != "" ==> a.content.hash == o.hash(data)))
    {
      match a.content
      case Raw(d) =>
        return d, true;
      case OtherType =>
        return [], false;
      case Storage(key, size, hash) =>
        data, ok := Load(key);
        if ok && (|data| != size || (hash != "" && hash != o.hash(data))) {
          ok := false;
        }
    }

    /** Lines 270-303: a repeated path is accepted only as the same file again. */
    method Add(name: string, mime: string, data: Bytes) returns (ok: bool)
      requires Valid()
      modifies this`files, this`fileBytes
      ensures Valid()
      ensures ok ==> o.safePath(name) && |data| <= limits.maxFileBytes
      ensures ok && files == old(files) ==> exists i :: 0 <= i < |files| && files[i].path == name && files[i].data == data
      ensures ok && files == old(files) ==> HasPath(files, name)
      ensures ok ==> HasFile(files, name, data)
      ensures ok && files != old(files) ==> exists f: File :: files == old(files) + [f] && f.path == name && f.data == data
      ensures !ok ==> files == old(files)
    {
      if !o.safePath(name) || |files| >= limits.maxFiles || |data| > limits.maxFileBytes {
        return false;
      }
      var typ := if mime == "" then o.mimeOf(name, data) else mime;
      for i := 0 to |files|
        invariant forall k :: 0 <= k < i ==> files[k].path != name
      {
        if files[i].path == name {
          return files[i].data == data && o.compatible(files[i].mime, typ);
        }
      }
      if |data| > limits.maxTotalBytes - fileBytes {
        return false;
      }
      FilesStep(files, fileBytes, limits, File(name, typ, data));
      fileBytes := fileBytes + |data|;
      files := files + [File(name, typ, data)];
      assert files[|files| - 1].path == name && files[|files| - 1].data == data;
      ok := true;
    }

    /** Lines 366-381: the separately stored entry replaces the one in the archive. */
    method ReplaceEntry(md: Bytes) returns (ok: bool)
      requires Valid()
      modifies this`files, this`fileBytes
      ensures Valid() && |files| == |old(files)|
      ensures forall i :: 0 <= i < |files| ==> files[i].path == old(files)[i].path
      ensures ok ==> forall i :: 0 <= i < |files| ==> files[i].data == if files[i].path == SKILL_MD then md else old(files)[i].data
    {
      for i := 0 to |files|
        invariant Valid() && |files| == |old(files)|
        invariant forall k :: 0 <= k < |files| ==> files[k].path == old(files)[k].path
        invariant forall k :: i <= k < |files| ==> files[k] == old(files)[k]
        invariant forall k :: 0 <= k < i ==> files[k].data == if files[k].path == SKILL_MD then md else old(files)[k].data
      {
        hide CacheValid, FilesValid;
        if files[i].path == SKILL_MD {
          AtLeast(files, fileBytes, limits, i);
          var next := fileBytes - |files[i].data| + |md|;
          if |md| > limits.maxFileBytes || next > limits.maxTotalBytes {
            return false;
          }
          ReplaceStep(files, fileBytes, limits, i, md);
          fileBytes := next;
          files := files[i := files[i].(data := md)];
        }
      }
      ok := true;
    }

    /** Lines 417-431: the recount. Its size tests never refuse. */
    method Recount(entry: string, found0: bool) returns (withinBudget: bool, found: bool)
      requires Valid()
      ensures withinBudget
      ensures found <==> found0 || exists i :: 0 <= i < |files| && files[i].path == entry && o.usable(files[i].data)
    {
      found := found0;
      var total := 0;
      for i := 0 to |files|
        invariant total == FileBytes(files[..i])
        invariant found <==> found0 || exists k :: 0 <= k < i && files[k].path == entry && o.usable(files[k].data)
      {
        PrefixBytes(files, i + 1);
        assert files[..i + 1][..i] == files[..i];
        total := total + |files[i].data|;
        if |files[i].data| > limits.maxFileBytes || total > limits.maxTotalBytes {
          return false, found;
        }
        if files[i].path == entry && o.usable(files[i].data) {
          found := true;
        }
      }
      withinBudget := true;
    }

    /** Lines 224-245: what is claimed about an object is checked before anything is kept. */
    method CheckAssertions(assertions: seq<Assertion>) returns (ok: bool)
      requires Valid()
      modifies this`cache, this`readBytes, this`fetched
      ensures Valid()
      ensures ok ==> AllHold(o, assertions, cache)
    {
      hide CacheValid, FilesValid, AllHold, Keeps;
      NoneHold(o, cache);
      assert assertions[..0] == [];
      for n := 0 to |assertions|
        invariant Valid()
        invariant AllHold(o, assertions[..n], cache)
      {
        var a := assertions[n];
        if a.size.Some? {
          if a.size.value > Ceiling(limits, archives, a.key) {
            return false;
          }
          if a.key !in cache && a.size.value > limits.maxTotalBytes - readBytes {
            return false;
          }
        }
        ghost var before := cache;
        var data, good := Load(a.key);
        if !good || !o.holds(a, data) {
          return false;
        }
        AllHoldStep(o, assertions[..n], a, before, cache);
        assert assertions[..n + 1] == assertions[..n] + [a];
      }
      assert assertions[..|assertions|] == assertions;
      ok := true;
    }

    /** Lines 382-394 and 396-413: the attachments that are not skipped become files. */
    method AddAttachments(attachments: seq<Attachment>, skip: set<string>, replacement: Option<string>) returns (ok: bool)
      requires Valid()
      modifies this
      ensures Valid()
      ensures ok ==> forall i :: 0 <= i < |attachments| && attachments[i].path !in skip ==> Delivered(o, files, cache, attachments[i], replacement)
      ensures ok ==> forall p :: HasPath(files, p) ==> HasPath(old(files), p) || exists i :: 0 <= i < |attachments| && attachments[i].path == p && p !in skip
      ensures old(files) <= files && Keeps(old(cache), cache)
    {
      hide CacheValid, FilesValid, HasPath, Delivered, Keeps;
      KeepsSelf(cache);
      for n := 0 to |attachments|
        invariant Valid() && old(files) <= files && Keeps(old(cache), cache)
        invariant forall i :: 0 <= i < n && attachments[i].path !in skip ==> Delivered(o, files, cache, attachments[i], replacement)
        invariant forall p :: HasPath(files, p) ==> HasPath(old(files), p) || exists i :: 0 <= i < n && attachments[i].path == p && p !in skip
      {
        var a := attachments[n];
        if a.path in skip {
          continue;
        }
        ghost var files0, cache0 := files, cache;
        var good := AddAttachment(a, replacement);
        KeepsOn(old(cache), cache0, cache);
        if !good {
          return false;
        }
        forall i | 0 <= i < n && attachments[i].path !in skip
          ensures Delivered(o, files, cache, attachments[i], replacement)
        {
          DeliveredStays(o, files0, cache0, files, cache, attachments[i], replacement);
        }
      }
      ok := true;
    }

    /** One attachment becomes a file with its own content, or the replacement's. */
    method AddAttachment(a: Attachment, replacement: Option<string>) returns (ok: bool)
      requires Valid()
      modifies this
      ensures Valid() && old(files) <= files && Keeps(old(cache), cache)
      ensures ok ==> Delivered(o, files, cache, a, replacement)
      ensures ok ==> forall p :: HasPath(files, p) <==> HasPath(old(files), p) || p == a.path
    {
      hide CacheValid, FilesValid, HasPath, Keeps;
      var data, good;
      if a.path == SKILL_MD && replacement.Some? {
        data, good := Load(replacement.value);
      } else {
        data, good := Get(a);
      }
      if !good {
        return false;
      }
      ghost var before := files;
      ok := Add(a.path, a.mime, data);
      if ok {
        PathsAfter(before, files, a.path);
      }
    }

    /** Lines 307-381: the files of an archive, and the entry that replaces its own. */
    method AddArchive(data: Bytes, entryKey: Option<string>) returns (ok: bool)
      requires Valid()
      modifies this
      ensures Valid() && Keeps(old(cache), cache)
      ensures ok ==> o.unpack(data).Some?
      ensures ok ==> forall p :: HasPath(files, p) ==> HasPath(old(files), p) || HasEntry(o.unpack(data).value, p)
      ensures ok ==> forall i :: 0 <= i < |o.unpack(data).value| ==> Unpacked(files, cache, o.unpack(data).value[i], entryKey)
    {
      hide CacheValid, FilesValid, HasPath, HasFile, Keeps;
      KeepsSelf(cache);
      var entries := o.unpack(data);
      if entries.None? {
        return false;
      }
      for n := 0 to |entries.value|
        invariant Valid() && cache == old(cache)
        invariant forall i :: 0 <= i < n ==> HasFile(files, entries.value[i].0, entries.value[i].1)
        invariant forall p :: HasPath(files, p) ==> HasPath(old(files), p) || HasEntry(entries.value, p)
      {
        ghost var before := files;
        var good := Add(entries.value[n].0, "", entries.value[n].1);
        if !good {
          return false;
        }
        PathsAfter(before, files, entries.value[n].0);
        forall i | 0 <= i < n
          ensures HasFile(files, entries.value[i].0, entries.value[i].1)
        {
          HasFileStays(before, files, entries.value[i].0, entries.value[i].1);
        }
      }
      if entryKey.Some? {
        var md, good := Load(entryKey.value);
        if !good {
          return false;
        }
        ghost var before := files;
        good := ReplaceEntry(md);
        if !good {
          return false;
        }
        forall i | 0 <= i < |entries.value|
          ensures HasFile(files, entries.value[i].0, if entries.value[i].0 == SKILL_MD then md else entries.value[i].1)
        {
          HasFileReplaced(before, files, entries.value[i].0, entries.value[i].1, md);
        }
        SamePaths(before, files);
      }
      ok := true;
    }

    /** Lines 224-440 in order. On success the budget holds of everything read and kept, the
        entry is there, and the files are those of the archive and the attachments. */
    method Resolve(src: Source) returns (ok: bool)
      requires Valid()
      modifies this
      ensures Valid()
      ensures ok && !src.connector ==> exists i :: 0 <= i < |files| && files[i].path == EntryOf(src) && o.usable(files[i].data)
      ensures ok ==> forall i :: 0 <= i < |src.attachments| && src.attachments[i].path !in Skipped(src) ==>
                Delivered(o, files, cache, src.attachments[i], if Archived(src) then None else src.entryKey)
      ensures ok && Archived(src) ==> Entries(o, src, cache).Some? && AllUnpacked(files, cache, Entries(o, src, cache).value, src.entryKey)
      ensures ok ==> forall p :: HasPath(files, p) ==> HasPath(old(files), p) || Expected(o, src, cache, p)
    {
      hide CacheValid, FilesValid, HasPath, Skipped, EntryOf, Delivered, Keeps, Unpacked, HasEntry;
      ok := CheckAssertions(src.assertions);
      if !ok {
        return false;
      }
      if Archived(src) {
        var data;
        if src.zipAttachment.Some? {
          data, ok := Get(src.zipAttachment.value);
        } else {
          data, ok := Load(src.zipKey.value);
        }
        if !ok {
          return false;
        }
        ghost var cache0 := cache;
        ok := AddArchive(data, src.entryKey);
        if !ok {
          return false;
        }
        ghost var files1, cache1 := files, cache;
        ok := AddAttachments(src.attachments, Skipped(src), None);
        ArchiveKept(o, src, cache0, cache1, data);
        ArchiveKept(o, src, cache1, cache, data);
        AllUnpackedStay(files1, cache1, files, cache, o.unpack(data).value, src.entryKey);
      } else {
        ok := AddAttachments(src.attachments, Skipped(src), src.entryKey);
      }
      if !ok {
        return false;
      }
      var within, found := Recount(EntryOf(src), src.connector);
      if !within || !found {
        return false;
      }
      if src.icon.Some? {
        ghost var cache0 := cache;
        var _, good := Load(src.icon.value);
        ok := good;
        forall i | 0 <= i < |src.attachments| && src.attachments[i].path !in Skipped(src)
          ensures Delivered(o, files, cache, src.attachments[i], if Archived(src) then None else src.entryKey)
        {
          DeliveredStays(o, files, cache0, files, cache, src.attachments[i], if Archived(src) then None else src.entryKey);
        }
        if Archived(src) {
          ArchiveKept(o, src, cache0, cache, ArchiveBytes(src, cache0).value);
          AllUnpackedStay(files, cache0, files, cache, Entries(o, src, cache0).value, src.entryKey);
        }
      }
    }
  }

  ghost predicate HasFile(files: seq<File>, p: string, data: Bytes) {
    exists i :: 0 <= i < |files| && files[i].path == p && files[i].data == data
  }

  /** The attachment is there as a file, with the content it declares or the one replacing it. */
  ghost predicate Delivered(o: Oracles, files: seq<File>, cache: map<string, Bytes>, a: Attachment, replacement: Option<string>) {
    if a.path == SKILL_MD && replacement.Some?
    then replacement.value in cache && HasFile(files, a.path, cache[replacement.value])
    else
      match a.content
      case Raw(data) => HasFile(files, a.path, data)
      case Storage(key, size, hash) =>
        key in cache && |cache[key]| == size && (hash != "" ==> hash == o.hash(cache[key])) && HasFile(files, a.path, cache[key])
      case OtherType => false
  }

  /** An entry of the archive is there; the entry file with the content replacing it. */
  ghost predicate Unpacked(files: seq<File>, cache: map<string, Bytes>, entry: (string, Bytes), entryKey: Option<string>) {
    if entry.0 == SKILL_MD && entryKey.Some?
    then entryKey.value in cache && HasFile(files, entry.0, cache[entryKey.value])
    else HasFile(files, entry.0, entry.1)
  }

  ghost predicate AllUnpacked(files: seq<File>, cache: map<string, Bytes>, entries: seq<(string, Bytes)>, entryKey: Option<string>) {
    forall i :: 0 <= i < |entries| ==> Unpacked(files, cache, entries[i], entryKey)
  }

  lemma AllUnpackedStay(files0: seq<File>, cache0: map<string, Bytes>, files: seq<File>, cache: map<string, Bytes>, entries: seq<(string, Bytes)>, entryKey: Option<string>)
    requires files0 <= files && Keeps(cache0, cache) && AllUnpacked(files0, cache0, entries, entryKey)
    ensures AllUnpacked(files, cache, entries, entryKey)
  {
    hide HasFile;
    forall i | 0 <= i < |entries|
      ensures Unpacked(files, cache, entries[i], entryKey)
    {
      assert Unpacked(files0, cache0, entries[i], entryKey);
      HasFileStays(files0, files, entries[i].0, if entries[i].0 == SKILL_MD && entryKey.Some? then cache0[entryKey.value] else entries[i].1);
    }
  }

  ghost predicate HasEntry(entries: seq<(string, Bytes)>, p: string) {
    exists i :: 0 <= i < |entries| && entries[i].0 == p
  }

  /** The content of a skill is in an archive, an attachment or an object of its own. */
  predicate Archived(src: Source) {
    src.skill && (src.zipAttachment.Some? || src.zipKey.Some?)
  }

  /** The archive, as far as it was read. */
  ghost function ArchiveBytes(src: Source, cache: map<string, Bytes>): Option<Bytes> {
    if src.zipAttachment.Some? then
      match src.zipAttachment.value.content
      case Raw(data) => Some(data)
      case Storage(key, _, _) => if key in cache then Some(cache[key]) else None
      case OtherType => None
    else if src.zipKey.Some? && src.zipKey.value in cache then Some(cache[src.zipKey.value])
    else None
  }

  /** What the archive unpacks to. */
  ghost function Entries(o: Oracles, src: Source, cache: map<string, Bytes>): Option<seq<(string, Bytes)>> {
    match ArchiveBytes(src, cache)
    case Some(data) => o.unpack(data)
    case None => None
  }

  lemma ArchiveKept(o: Oracles, src: Source, before: map<string, Bytes>, after: map<string, Bytes>, data: Bytes)
    requires Keeps(before, after) && ArchiveBytes(src, before) == Some(data)
    ensures ArchiveBytes(src, after) == Some(data) && Entries(o, src, after) == o.unpack(data)
  {
  }

  /** A path that the source accounts for: an attachment that is not skipped, or an entry of the archive. */
  ghost predicate Expected(o: Oracles, src: Source, cache: map<string, Bytes>, p: string) {
    || (exists i :: 0 <= i < |src.attachments| && src.attachments[i].path == p && p !in Skipped(src))
    || (Archived(src) && Entries(o, src, cache).Some? && HasEntry(Entries(o, src, cache).value, p))
  }

  lemma SamePaths(before: seq<File>, after: seq<File>)
    requires |after| == |before| && forall i :: 0 <= i < |after| ==> after[i].path == before[i].path
    ensures forall p :: HasPath(after, p) ==> HasPath(before, p)
  {
  }

  lemma KeepsSelf(cache: map<string, Bytes>)
    ensures Keeps(cache, cache)
  {
  }

  lemma KeepsOn(a: map<string, Bytes>, b: map<string, Bytes>, c: map<string, Bytes>)
    requires Keeps(a, b) && Keeps(b, c)
    ensures Keeps(a, c)
  {
  }

  lemma HasFileReplaced(before: seq<File>, after: seq<File>, p: string, data: Bytes, md: Bytes)
    requires |after| == |before| && HasFile(before, p, data)
    requires forall i :: 0 <= i < |after| ==> after[i].path == before[i].path
    requires forall i :: 0 <= i < |after| ==> after[i].data == if after[i].path == SKILL_MD then md else before[i].data
    ensures HasFile(after, p, if p == SKILL_MD then md else data)
  {
    var i :| 0 <= i < |before| && before[i].path == p && before[i].data == data;
    assert after[i].path == p;
  }

  lemma HasFileStays(files0: seq<File>, files: seq<File>, p: string, data: Bytes)
    requires files0 <= files && HasFile(files0, p, data)
    ensures HasFile(files, p, data)
  {
    var i :| 0 <= i < |files0| && files0[i].path == p && files0[i].data == data;
    assert files[i] == files0[i];
  }

  lemma DeliveredStays(o: Oracles, files0: seq<File>, cache0: map<string, Bytes>, files: seq<File>, cache: map<string, Bytes>, a: Attachment, replacement: Option<string>)
    requires files0 <= files && Keeps(cache0, cache) && Delivered(o, files0, cache0, a, replacement)
    ensures Delivered(o, files, cache, a, replacement)
  {
    hide HasFile;
    if a.path == SKILL_MD && replacement.Some? {
      HasFileStays(files0, files, a.path, cache0[replacement.value]);
    } else if a.content.Raw? {
      HasFileStays(files0, files, a.path, a.content.data);
    } else {
      HasFileStays(files0, files, a.path, cache0[a.content.key]);
    }
  }

  function EntryOf(src: Source): string {
    if src.skill then SKILL_MD else "AGENTS.md"
  }

  /** The attachments that do not become files of their own. */
  function Skipped(src: Source): set<string> {
    if Archived(src)
    then {REF_JSON, PACKAGE_ZIP} + if src.entryKey.Some? || RawEntry(src) then {SKILL_MD} else {}
    else {REF_JSON}
  }

  predicate RawEntry(src: Source) {
    exists i :: 0 <= i < |src.attachments| && src.attachments[i].path == SKILL_MD && src.attachments[i].content.Raw?
  }

  ghost predicate HasPath(files: seq<File>, p: string) {
    exists i :: 0 <= i < |files| && files[i].path == p
  }

  lemma PathsAfter(before: seq<File>, after: seq<File>, name: string)
    requires after == before ==> HasPath(after, name)
    requires after != before ==> exists f: File :: after == before + [f] && f.path == name
    ensures forall p :: HasPath(after, p) <==> HasPath(before, p) || p == name
  {
    if after != before {
      var f: File :| after == before + [f] && f.path == name;
      forall p
        ensures HasPath(after, p) <==> HasPath(before, p) || p == name
      {
        if HasPath(before, p) {
          var i :| 0 <= i < |before| && before[i].path == p;
          assert after[i].path == p;
        }
        assert after[|before|].path == name;
      }
    }
  }

  /** Nothing is forgotten. */
  ghost predicate Keeps(before: map<string, Bytes>, after: map<string, Bytes>) {
    forall k :: k in before ==> k in after && after[k] == before[k]
  }

  /** Every assertion is about an object that was read, and holds of it. */
  ghost predicate AllHold(o: Oracles, assertions: seq<Assertion>, cache: map<string, Bytes>) {
    forall i :: 0 <= i < |assertions| ==> assertions[i].key in cache && o.holds(assertions[i], cache[assertions[i].key])
  }

  lemma NoneHold(o: Oracles, cache: map<string, Bytes>)
    ensures AllHold(o, [], cache)
  {
  }

  lemma AllHoldStep(o: Oracles, assertions: seq<Assertion>, a: Assertion, before: map<string, Bytes>, after: map<string, Bytes>)
    requires AllHold(o, assertions, before) && Keeps(before, after)
    requires a.key in after && o.holds(a, after[a.key])
    ensures AllHold(o, assertions + [a], after)
  {
  }

  /** The ceiling of one read before the total is considered. */
  function Ceiling(limits: Limits, archives: set<string>, key: string): nat {
    if key in archives then limits.maxArchiveBytes else limits.maxFileBytes
  }

  lemma CacheBound(cache: map<string, Bytes>, readBytes: nat, fetched: seq<Fetch>, limits: Limits)
    requires CacheValid(cache, readBytes, fetched, limits)
    ensures readBytes <= limits.maxTotalBytes
  {
  }

  lemma AtLeast(files: seq<File>, fileBytes: nat, limits: Limits, i: nat)
    requires FilesValid(files, fileBytes, limits) && i < |files|
    ensures |files[i].data| <= fileBytes
  {
    PrefixBytes(files, i + 1);
    assert files[..i + 1][..i] == files[..i];
  }
}
