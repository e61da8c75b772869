/** The upload node (`OSS_Upload`): walks a manifest of already-written output
    files, puts each one to the object store under `outputs/{task_id}/{filename}`
    and reports what was uploaded and what failed.

    The outside world is passed in: the local file system is a map from path to
    size in bytes, the object-store PUT is an oracle answering per (local path,
    key), and `os.remove` is an oracle saying whether removing a path succeeds.
    The file system is threaded through the walk, so a file removed after its
    upload is gone for any later manifest entry that names it again. */
module Uploader {
  import opened Wrappers
  import opened Text
  import opened Paths

  /** A value as `json.loads` returns it. An object keeps its fields in
      document order. */
  datatype Json =
    | Null
    | Bool(b: bool)
    | Number(x: real)
    | Str(s: string)
    | Array(items: seq<Json>)
    | Object(fields: seq<(string, Json)>)

  /** Python truthiness of a JSON value: None, False, 0, "", [] and {} are false. */
  predicate Truthy(v: Json) {
    match v
    case Null => false
    case Bool(b) => b
    case Number(x) => x != 0.0
    case Str(s) => s != ""
    case Array(items) => items != []
    case Object(fields) => fields != []
  }

  /** `d.get(key, default)` on an object's fields. */
  function Get(fields: seq<(string, Json)>, key: string, default: Json): (v: Json)
    ensures (key, v) in fields || (v == default && forall i :: 0 <= i < |fields| ==> fields[i].0 != key)
    ensures (exists i :: 0 <= i < |fields| && fields[i].0 == key) ==> (key, v) in fields
  {
    if fields == [] then default
    else if fields[0].0 == key then fields[0].1
    else Get(fields[1..], key, default)
  }

  type FileSystem = map<string, nat>

  datatype PutOutcome = Stored | PutRaised(detail: string)

  /** Everything one upload call is configured with. */
  datatype Env = Env(
    outputDir: string,
    taskId: string,
    deleteAfterUpload: bool,
    put: (string, string) -> PutOutcome,
    removes: string -> bool)

  /** One entry of `uploaded_files`. Its `content_type` is always the type of
      its file name, so it is derived rather than stored. */
  datatype UploadedFile = UploadedFile(filename: string, ossPath: string, size: nat) {
    function contentType(): string {
      ContentType(filename)
    }
  }

  datatype FailReason =
    | FileNotFound
    | NotAPath        // os.path.join was handed a component that is not a string
    | PutFailed(detail: string)

  datatype FailedFile = FailedFile(filename: Json, reason: FailReason)

  /** The accumulators of the walk, together with the current file system. */
  datatype Progress = Progress(
    files: FileSystem,
    uploaded: seq<UploadedFile>,
    failed: seq<FailedFile>,
    totalSize: nat)

  datatype Status = StatusSuccess | StatusPartial | StatusError

  datatype Report = Report(
    status: Status,
    taskId: string,
    uploadedCount: nat,
    failedCount: nat,
    totalSize: nat,
    uploaded: seq<UploadedFile>,
    failed: seq<FailedFile>)

  /** What ends the walk early: an attribute lookup on something that is not a
      JSON object, which the per-entry error handling does not cover. A bad
      list item keeps what the walk had done before it: the uploads, failures
      and removals up to that point have already happened. */
  datatype Abort = ManifestNotObject | EntryNotObject(entry: Json, reached: Progress)

  function StatusText(s: Status): string {
    match s
    case StatusSuccess => "success"
    case StatusPartial => "partial"
    case StatusError => "error"
  }

  function ReasonText(r: FailReason): string {
    match r
    case FileNotFound => "File not found"
    case NotAPath => "join() argument must be str, bytes, or os.PathLike object"
    case PutFailed(d) => d
  }

  // ----- content types -------------------------------------------------------

  /** The extension table of `_get_content_type`, in the source's order. */
  const ContentTypeTable: seq<(string, string)> := [
    (".jpg", "image/jpeg"), (".jpeg", "image/jpeg"), (".png", "image/png"),
    (".gif", "image/gif"), (".bmp", "image/bmp"), (".webp", "image/webp"),
    (".svg", "image/svg+xml"), (".tiff", "image/tiff"),
    (".mp4", "video/mp4"), (".avi", "video/x-msvideo"), (".mov", "video/quicktime"),
    (".mkv", "video/x-matroska"), (".flv", "video/x-flv"), (".wmv", "video/x-ms-wmv"),
    (".webm", "video/webm"), (".m4v", "video/x-m4v"), (".mpg", "video/mpeg"),
    (".mpeg", "video/mpeg"),
    (".mp3", "audio/mpeg"), (".wav", "audio/wav"), (".aac", "audio/aac"),
    (".flac", "audio/flac"), (".ogg", "audio/ogg"), (".m4a", "audio/mp4"),
    (".wma", "audio/x-ms-wma"), (".aiff", "audio/aiff"),
    (".txt", "text/plain"), (".json", "application/json"), (".xml", "application/xml"),
    (".pdf", "application/pdf"), (".zip", "application/zip"), (".gz", "application/gzip")]

  /** `table.get(key)`: the value of the first entry with that key. */
  function Lookup(table: seq<(string, string)>, key: string): Option<string> {
    if table == [] then None
    else if table[0].0 == key then Some(table[0].1)
    else Lookup(table[1..], key)
  }

  /** The lookup finds a value exactly when some entry has the key, and what it
      finds is the value of the first such entry. */
  lemma {:induction false} LookupFinds(table: seq<(string, string)>, key: string)
    ensures Lookup(table, key).Some? <==> exists i :: 0 <= i < |table| && table[i].0 == key
    ensures Lookup(table, key).Some? ==>
              exists i :: 0 <= i < |table| && table[i] == (key, Lookup(table, key).value)
                          && forall j :: 0 <= j < i ==> table[j].0 != key
  {
    if table != [] && table[0].0 != key {
      LookupFinds(table[1..], key);
      if Lookup(table, key).Some? {
        var i :| 0 <= i < |table[1..]| && table[1..][i] == (key, Lookup(table, key).value)
                 && forall j :: 0 <= j < i ==> table[1..][j].0 != key;
        assert table[i + 1] == (key, Lookup(table, key).value);
        assert forall j :: 0 <= j < i + 1 ==> table[j].0 != key by {
          forall j | 0 <= j < i + 1 ensures table[j].0 != key {
            if j > 0 { assert table[j] == table[1..][j - 1]; }
          }
        }
      } else {
        forall i | 0 <= i < |table| ensures table[i].0 != key {
          if i > 0 { assert table[i] == table[1..][i - 1]; }
        }
      }
    } else if table != [] {
      assert table[0] == (key, Lookup(table, key).value);
    }
  }

  const DefaultContentType: string := "application/octet-stream"

  /** No entry of the table maps to the default type. */
  lemma TableAvoidsDefault()
    ensures forall i :: 0 <= i < |ContentTypeTable| ==> ContentTypeTable[i].1 != DefaultContentType
  {
  }

  /** `_get_content_type`: the lower-cased pathlib suffix looked up in the
      table. The default comes out exactly when no entry has that suffix as
      its key; otherwise the type is the value of an entry that does. */
  function ContentType(filename: string): (r: string)
    ensures r == DefaultContentType <==>
              forall i :: 0 <= i < |ContentTypeTable| ==> ContentTypeTable[i].0 != Lower(Suffix(PathName(filename)))
    ensures r != DefaultContentType ==>
              exists i :: 0 <= i < |ContentTypeTable| && ContentTypeTable[i] == (Lower(Suffix(PathName(filename))), r)
  {
    var key := Lower(Suffix(PathName(filename)));
    LookupFinds(ContentTypeTable, key);
    TableAvoidsDefault();
    Lookup(ContentTypeTable, key).GetOr(DefaultContentType)
  }

  /** The lookup is case-insensitive: names equal up to ASCII case get the same type. */
  lemma ContentTypeIgnoresCase(f: string, g: string)
    requires Lower(f) == Lower(g)
    ensures ContentType(f) == ContentType(g)
  {
    ContentTypeOfLowered(f);
    ContentTypeOfLowered(g);
  }

  lemma ContentTypeOfLowered(f: string)
    ensures ContentType(Lower(f)) == ContentType(f)
  {
    PathNameLower(f);
    SuffixLower(PathName(f));
    LowerIdempotent(Suffix(PathName(f)));
  }

  /** A name `stem.ext` with a non-empty stem and a dot-free extension is
      typed by its last extension, whatever its case: `clip.MP4` is a video and
      `archive.tar.gz` a gzip archive. */
  lemma ContentTypeOfExtension(stem: string, ext: string)
    requires stem != "" && ext != ""
    requires '/' !in stem && '/' !in ext && '.' !in ext
    ensures ContentType(stem + "." + ext) == Lookup(ContentTypeTable, "." + Lower(ext)).GetOr(DefaultContentType)
  {
    SuffixOfExtension(stem, ext);
    LowerAppend(".", ext);
  }

  /** Every key of the table is a non-empty suffix. */
  lemma TableKeysNonEmpty()
    ensures forall i :: 0 <= i < |ContentTypeTable| ==> ContentTypeTable[i].0 != ""
  {
  }

  /** A name whose final component has no dot, or only a leading one (a
      hidden file such as `.png`), has no suffix and gets the default type. */
  lemma ContentTypeWithoutSuffix(name: string)
    requires '.' !in PathName(name) || (PathName(name)[0] == '.' && '.' !in PathName(name)[1..])
    ensures ContentType(name) == DefaultContentType
  {
    var n := PathName(name);
    if '.' in n {
      SuffixOfHidden(n);
    }
    assert Suffix(n) == "";
    assert Lower("") == "";
    TableKeysNonEmpty();
    LookupFinds(ContentTypeTable, "");
  }

  // ----- one entry -----------------------------------------------------------

  /** `outputs/{task_id}/{filename}`: the subfolder plays no part. */
  function RemoteKey(taskId: string, name: string): string {
    "outputs/" + taskId + "/" + name
  }

  /** The entry names something `os.path.join` accepts. */
  predicate PathParts(filename: Json, subfolder: Json) {
    filename.Str? && (!Truthy(subfolder) || subfolder.Str?)
  }

  /** The local path of an entry: the subfolder joins in only when it is truthy. */
  function LocalPath(outputDir: string, name: string, subfolder: Json): string
    requires !Truthy(subfolder) || subfolder.Str?
  {
    if Truthy(subfolder) then Join(Join(outputDir, subfolder.s), name) else Join(outputDir, name)
  }

  /** With a plain output directory and relative names, the local path is the
      three parts separated by '/', and the subfolder is left out when empty. */
  lemma LocalPathLayout(outputDir: string, sub: string, name: string)
    requires outputDir != "" && outputDir[|outputDir| - 1] != '/'
    requires !IsAbsolute(sub) && !IsAbsolute(name)
    requires sub != "" ==> sub[|sub| - 1] != '/'
    ensures LocalPath(outputDir, name, Str(sub)) ==
              if sub == "" then outputDir + "/" + name else outputDir + "/" + sub + "/" + name
  {
  }

  function TotalSize(us: seq<UploadedFile>): nat {
    if us == [] then 0 else us[0].size + TotalSize(us[1..])
  }

  lemma {:induction false} TotalSizeAppend(us: seq<UploadedFile>, u: UploadedFile)
    ensures TotalSize(us + [u]) == TotalSize(us) + u.size
  {
    if us != [] {
      assert (us + [u])[1..] == us[1..] + [u];
      TotalSizeAppend(us[1..], u);
    }
  }

  /** An uploaded record carries the key of its name. */
  predicate Keyed(taskId: string, u: UploadedFile) {
    u.ossPath == RemoteKey(taskId, u.filename)
  }

  predicate WellKeyed(taskId: string, us: seq<UploadedFile>) {
    forall i :: 0 <= i < |us| ==> Keyed(taskId, us[i])
  }

  /** The invariant of the walk: the running total is the sum of the uploaded sizes. */
  predicate Consistent(taskId: string, st: Progress) {
    st.totalSize == TotalSize(st.uploaded) && WellKeyed(taskId, st.uploaded)
  }

  /** `st'` is `st` with records appended and possibly some files removed. */
  predicate Extends(st: Progress, st': Progress) {
    && |st.uploaded| <= |st'.uploaded| && st'.uploaded[..|st.uploaded|] == st.uploaded
    && |st.failed| <= |st'.failed| && st'.failed[..|st.failed|] == st.failed
    && st'.files.Keys <= st.files.Keys
    && forall p :: p in st'.files ==> st'.files[p] == st.files[p]
  }

  function Recorded(st: Progress): nat {
    |st.uploaded| + |st.failed|
  }

  function Fail(st: Progress, filename: Json, reason: FailReason): (r: Progress)
    ensures Extends(st, r) && Recorded(r) == Recorded(st) + 1
    ensures r.uploaded == st.uploaded && r.files == st.files && r.totalSize == st.totalSize
    ensures r.failed == st.failed + [FailedFile(filename, reason)]
  {
    st.(failed := st.failed + [FailedFile(filename, reason)])
  }

  function Succeed(taskId: string, st: Progress, u: UploadedFile, files: FileSystem): (r: Progress)
    requires files.Keys <= st.files.Keys && forall p :: p in files ==> files[p] == st.files[p]
    requires Keyed(taskId, u)
    ensures Extends(st, r) && Recorded(r) == Recorded(st) + 1
    ensures r.failed == st.failed && r.files == files && r.uploaded[|st.uploaded|] == u
    ensures Consistent(taskId, st) ==> Consistent(taskId, r)
  {
    var r := Progress(files, st.uploaded + [u], st.failed, st.totalSize + u.size);
    ConsistentAppend(taskId, st, u, r);
    r
  }

  lemma ConsistentAppend(taskId: string, st: Progress, u: UploadedFile, r: Progress)
    requires Keyed(taskId, u)
    requires r.uploaded == st.uploaded + [u] && r.totalSize == st.totalSize + u.size
    ensures Consistent(taskId, st) ==> Consistent(taskId, r)
  {
    TotalSizeAppend(st.uploaded, u);
    WellKeyedAppend(taskId, st.uploaded, u);
  }

  lemma WellKeyedAppend(taskId: string, us: seq<UploadedFile>, u: UploadedFile)
    requires Keyed(taskId, u)
    ensures WellKeyed(taskId, us) ==> WellKeyed(taskId, us + [u])
  {
    if WellKeyed(taskId, us) {
      forall i | 0 <= i < |us + [u]|
        ensures Keyed(taskId, (us + [u])[i])
      {
        if i < |us| {
          assert (us + [u])[i] == us[i];
        }
      }
    }
  }

  /** The body of the per-entry `try` for an entry with a truthy filename:
      exactly one record is appended, uploaded or failed. */
  function UploadEntry(env: Env, st: Progress, filename: Json, subfolder: Json): (r: Progress)
    ensures Extends(st, r)
    ensures Recorded(r) == Recorded(st) + 1
    ensures Consistent(env.taskId, st) ==> Consistent(env.taskId, r)
    ensures |r.uploaded| == |st.uploaded| ==> r.files == st.files && r.totalSize == st.totalSize
    ensures !env.deleteAfterUpload ==> r.files == st.files
    ensures |r.uploaded| > |st.uploaded| ==>
              PathParts(filename, subfolder) && LocalPath(env.outputDir, filename.s, subfolder) in st.files
              && r.uploaded[|st.uploaded|].size == st.files[LocalPath(env.outputDir, filename.s, subfolder)]
              && r.uploaded[|st.uploaded|].filename == filename.s
    ensures !PathParts(filename, subfolder) ==> r == Fail(st, filename, NotAPath)
    ensures PathParts(filename, subfolder) && LocalPath(env.outputDir, filename.s, subfolder) !in st.files ==>
              r == Fail(st, filename, FileNotFound)
    ensures PathParts(filename, subfolder) && LocalPath(env.outputDir, filename.s, subfolder) in st.files ==>
              var local := LocalPath(env.outputDir, filename.s, subfolder);
              var key := RemoteKey(env.taskId, filename.s);
              match env.put(local, key)
              case PutRaised(d) => r == Fail(st, filename, PutFailed(d))
              case Stored =>
                && r.uploaded == st.uploaded + [UploadedFile(filename.s, key, st.files[local])]
                && r.failed == st.failed
                && r.totalSize == st.totalSize + st.files[local]
                && (env.deleteAfterUpload && env.removes(local) ==> r.files == st.files - {local})
                && (!(env.deleteAfterUpload && env.removes(local)) ==> r.files == st.files)
  {
    if !PathParts(filename, subfolder) then Fail(st, filename, NotAPath)
    else
      var name := filename.s;
      var local := LocalPath(env.outputDir, name, subfolder);
      if local !in st.files then Fail(st, filename, FileNotFound)
      else
        var key := RemoteKey(env.taskId, name);
        var size := st.files[local];
        match env.put(local, key)
        case PutRaised(d) => Fail(st, filename, PutFailed(d))
        case Stored =>
          var files := if env.deleteAfterUpload && env.removes(local) then st.files - {local} else st.files;
          Succeed(env.taskId, st, UploadedFile(name, key, size), files)
  }

  /** Whether the local file could be removed afterwards, or was to be removed
      at all, changes nothing that is recorded for the entry. */
  lemma RemovalDoesNotChangeRecord(env: Env, removes': string -> bool, delete': bool,
                                   st: Progress, filename: Json, subfolder: Json)
    ensures var a := UploadEntry(env, st, filename, subfolder);
            var b := UploadEntry(env.(removes := removes', deleteAfterUpload := delete'), st, filename, subfolder);
            a.uploaded == b.uploaded && a.failed == b.failed && a.totalSize == b.totalSize
  {
  }

  /** Two entries for the same file name under different subfolders get the
      same object-store key. */
  lemma RemoteKeyIgnoresSubfolder(env: Env, st: Progress, name: string, sub1: Json, sub2: Json)
    requires PathParts(Str(name), sub1) && PathParts(Str(name), sub2)
    requires Consistent(env.taskId, st)
    ensures var a := UploadEntry(env, st, Str(name), sub1);
            var b := UploadEntry(env, st, Str(name), sub2);
            |a.uploaded| > |st.uploaded| && |b.uploaded| > |st.uploaded| ==>
              a.uploaded[|st.uploaded|].ossPath == b.uploaded[|st.uploaded|].ossPath == RemoteKey(env.taskId, name)
  {
    var a := UploadEntry(env, st, Str(name), sub1);
    var b := UploadEntry(env, st, Str(name), sub2);
    if |a.uploaded| > |st.uploaded| && |b.uploaded| > |st.uploaded| {
      assert a.uploaded[|st.uploaded|].filename == name;
      assert b.uploaded[|st.uploaded|].filename == name;
    }
  }

  // ----- the walk ------------------------------------------------------------

  /** An entry that counts: an object whose `filename` is truthy. */
  predicate Eligible(item: Json) {
    item.Object? && Truthy(Get(item.fields, "filename", Null))
  }

  function EligibleCount(items: seq<Json>): nat {
    if items == [] then 0 else (if Eligible(items[0]) then 1 else 0) + EligibleCount(items[1..])
  }

  predicate AllObjects(items: seq<Json>) {
    forall i :: 0 <= i < |items| ==> items[i].Object?
  }

  /** One list item that is an object: entries without a truthy filename are
      skipped and leave no record. */
  function Visit(env: Env, st: Progress, fields: seq<(string, Json)>): (r: Progress)
    ensures Extends(st, r)
    ensures Recorded(r) == Recorded(st) + (if Eligible(Object(fields)) then 1 else 0)
    ensures Consistent(env.taskId, st) ==> Consistent(env.taskId, r)
    ensures Truthy(Get(fields, "filename", Null)) ==>
              r == UploadEntry(env, st, Get(fields, "filename", Null), Get(fields, "subfolder", Str("")))
    ensures !Truthy(Get(fields, "filename", Null)) ==> r == st
  {
    var filename := Get(fields, "filename", Null);
    var subfolder := Get(fields, "subfolder", Str(""));
    if Truthy(filename) then UploadEntry(env, st, filename, subfolder) else st
  }

  /** The inner loop over one kind's list. */
  function UploadList(env: Env, st: Progress, items: seq<Json>): (r: Result<Progress, Abort>)
    ensures r.Success? <==> AllObjects(items)
    ensures r.Success? ==> Extends(st, r.value)
    ensures r.Success? ==> Recorded(r.value) == Recorded(st) + EligibleCount(items)
    ensures r.Success? && Consistent(env.taskId, st) ==> Consistent(env.taskId, r.value)
    ensures r.Failure? ==>
              var i := FirstNonObject(items);
              && i < |items| && r.error.EntryNotObject? && r.error.entry == items[i]
              && UploadList(env, st, items[..i]) == Success(r.error.reached)
    decreases |items|
  {
    if items == [] then Success(st)
    else
      match items[0]
      case Object(fields) =>
        var r := UploadList(env, Visit(env, st, fields), items[1..]);
        AllObjectsTail(items);
        if r.Failure? then
          var i := FirstNonObject(items[1..]);
          PrefixPastObject(items, i);
          assert UploadList(env, st, items[..i + 1]) == UploadList(env, Visit(env, st, fields), items[1..][..i]);
          r
        else r
      case _ =>
        assert items[..0] == [];
        Failure(EntryNotObject(items[0], st))
  }

  /** The position of the first list item that is not an object, or the
      length of the list when every item is one. */
  function FirstNonObject(items: seq<Json>): (i: nat)
    ensures i <= |items| && AllObjects(items[..i])
    ensures i < |items| ==> !items[i].Object?
    ensures i == |items| <==> AllObjects(items)
  {
    if items == [] || !items[0].Object? then 0
    else
      var i := FirstNonObject(items[1..]);
      PrefixPastObject(items, i);
      AllObjectsTail(items);
      assert items[..|items|] == items;
      1 + i
  }

  lemma AllObjectsTail(items: seq<Json>)
    requires items != [] && items[0].Object?
    ensures AllObjects(items) <==> AllObjects(items[1..])
  {
    if AllObjects(items[1..]) {
      forall i | 0 <= i < |items|
        ensures items[i].Object?
      {
        if i > 0 {
          assert items[i] == items[1..][i - 1];
        }
      }
    }
  }

  /** A prefix of the tail that holds only objects, extended by an object at
      the head. */
  lemma PrefixPastObject(items: seq<Json>, i: nat)
    requires items != [] && items[0].Object? && i <= |items| - 1
    requires AllObjects(items[1..][..i])
    ensures AllObjects(items[..i + 1])
    ensures items[..i + 1] != [] && items[..i + 1][0] == items[0] && items[..i + 1][1..] == items[1..][..i]
  {
    var pre := items[..i + 1];
    assert pre[1..] == items[1..][..i];
    forall k | 0 <= k < |pre| ensures pre[k].Object? {
      if k > 0 {
        assert pre[k] == items[1..][..i][k - 1];
      }
    }
  }

  lemma UploadListSingle(env: Env, st: Progress, item: Json)
    requires item.Object?
    ensures UploadList(env, st, [item]) == Success(Visit(env, st, item.fields))
  {
    assert [item][1..] == [];
  }

  /** Walking `a + b` is walking `a` and then, from where that ended, `b`. */
  lemma {:induction false} UploadListAppend(env: Env, st: Progress, a: seq<Json>, b: seq<Json>)
    ensures UploadList(env, st, a + b) ==
              match UploadList(env, st, a)
              case Success(mid) => UploadList(env, mid, b)
              case Failure(e) => Failure(e)
    decreases |a|
  {
    if a != [] {
      assert (a + b)[0] == a[0];
      assert (a + b)[1..] == a[1..] + b;
      if a[0].Object? {
        UploadListAppend(env, Visit(env, st, a[0].fields), a[1..], b);
      }
    } else {
      assert a + b == b;
    }
  }

  /** The entries the walk visits: the lists of the kinds whose value is a list,
      one after the other; other kinds are skipped. */
  function Listed(kinds: seq<(string, Json)>): seq<Json> {
    if kinds == [] then []
    else if kinds[0].1.Array? then kinds[0].1.items + Listed(kinds[1..])
    else Listed(kinds[1..])
  }

  /** The outer loop over the manifest's kinds. It is the inner loop run over
      the concatenation of every listed entry. */
  function UploadKinds(env: Env, st: Progress, kinds: seq<(string, Json)>): (r: Result<Progress, Abort>)
    ensures r == UploadList(env, st, Listed(kinds))
    decreases |kinds|
  {
    if kinds == [] then Success(st)
    else if kinds[0].1.Array? then
      UploadListAppend(env, st, kinds[0].1.items, Listed(kinds[1..]));
      var mid :- UploadList(env, st, kinds[0].1.items);
      UploadKinds(env, mid, kinds[1..])
    else UploadKinds(env, st, kinds[1..])
  }

  /** The report's status: "success" when nothing failed, "partial" otherwise,
      even when nothing was uploaded. */
  function StatusOf(failed: seq<FailedFile>): Status {
    if failed == [] then StatusSuccess else StatusPartial
  }

  /** `_upload_files`. */
  function UploadFiles(env: Env, files: FileSystem, filesInfo: Json): (r: Result<Report, Abort>)
    ensures !filesInfo.Object? ==> r == Failure(ManifestNotObject)
    ensures r.Success? <==> filesInfo.Object? && AllObjects(Listed(filesInfo.fields))
    ensures r.Success? ==>
              && r.value.taskId == env.taskId
              && r.value.uploadedCount == |r.value.uploaded|
              && r.value.failedCount == |r.value.failed|
              && (r.value.status == StatusSuccess <==> r.value.failedCount == 0)
              && (r.value.status == StatusPartial <==> r.value.failedCount > 0)
              && r.value.totalSize == TotalSize(r.value.uploaded)
              && WellKeyed(env.taskId, r.value.uploaded)
              && r.value.uploadedCount + r.value.failedCount == EligibleCount(Listed(filesInfo.fields))
    ensures r.Success? ==>
              var w := UploadList(env, Progress(files, [], [], 0), Listed(filesInfo.fields));
              && w.Success? && r.value.uploaded == w.value.uploaded && r.value.failed == w.value.failed
              && r.value.totalSize == w.value.totalSize
    ensures filesInfo.Object? && r.Failure? ==>
              var listed := Listed(filesInfo.fields);
              var i := FirstNonObject(listed);
              && i < |listed| && r.error.EntryNotObject? && r.error.entry == listed[i]
              && UploadList(env, Progress(files, [], [], 0), listed[..i]) == Success(r.error.reached)
  {
    match filesInfo
    case Object(kinds) =>
      var start := Progress(files, [], [], 0);
      var done :- UploadKinds(env, start, kinds);
      Success(Report(StatusOf(done.failed), env.taskId, |done.uploaded|, |done.failed|,
                     done.totalSize, done.uploaded, done.failed))
    case _ => Failure(ManifestNotObject)
  }

  /** An entry naming a file that is not there is recorded as not found. */
  lemma VisitMissing(env: Env, st: Progress, a: string)
    requires a != "" && Join(env.outputDir, a) !in st.files
    ensures Visit(env, st, [("filename", Str(a))]) == Fail(st, Str(a), FileNotFound)
  {
    var fields := [("filename", Str(a))];
    assert Get(fields, "filename", Null) == Str(a);
    assert Get(fields, "subfolder", Str("")) == Str("");
  }

  /** An entry naming a present file that the store accepts is uploaded under
      its key with its size. */
  lemma VisitStored(env: Env, st: Progress, b: string)
    requires b != "" && Join(env.outputDir, b) in st.files
    requires env.put(Join(env.outputDir, b), RemoteKey(env.taskId, b)) == Stored
    ensures var r := Visit(env, st, [("filename", Str(b)), ("subfolder", Str(""))]);
            && r.uploaded == st.uploaded + [UploadedFile(b, RemoteKey(env.taskId, b), st.files[Join(env.outputDir, b)])]
            && r.failed == st.failed
            && r.totalSize == st.totalSize + st.files[Join(env.outputDir, b)]
  {
    var fields := [("filename", Str(b)), ("subfolder", Str(""))];
    assert Get(fields, "filename", Null) == Str(b);
    assert Get(fields, "subfolder", Str("")) == Str("");
  }

  /** A manifest naming one missing and one present file yields a partial
      report with one upload and one failure, whatever the names. */
  lemma OneMissingOnePresent(env: Env, files: FileSystem, a: string, b: string)
    requires a != "" && b != ""
    requires Join(env.outputDir, a) !in files && Join(env.outputDir, b) in files
    requires env.put(Join(env.outputDir, b), RemoteKey(env.taskId, b)) == Stored
    ensures var entryA := Object([("filename", Str(a))]);
            var entryB := Object([("filename", Str(b)), ("subfolder", Str(""))]);
            var r := UploadFiles(env, files, Object([("images", Array([entryA, entryB]))]));
            && r.Success?
            && r.value.status == StatusPartial
            && r.value.uploadedCount == 1 && r.value.failedCount == 1
            && r.value.totalSize == files[Join(env.outputDir, b)]
            && r.value.failed == [FailedFile(Str(a), FileNotFound)]
            && r.value.uploaded[0].ossPath == RemoteKey(env.taskId, b)
  {
    var entryA := Object([("filename", Str(a))]);
    var entryB := Object([("filename", Str(b)), ("subfolder", Str(""))]);
    var items := [entryA, entryB];
    assert items == [entryA] + [entryB];
    var kinds := [("images", Array(items))];
    assert Listed(kinds) == items by {
      assert Listed(kinds[1..]) == [];
    }
    var st0 := Progress(files, [], [], 0);
    VisitMissing(env, st0, a);
    var st1 := Visit(env, st0, entryA.fields);
    VisitStored(env, st1, b);
    var st2 := Visit(env, st1, entryB.fields);
    UploadListSingle(env, st0, entryA);
    UploadListSingle(env, st1, entryB);
    UploadListAppend(env, st0, [entryA], [entryB]);
    assert UploadKinds(env, st0, kinds) == Success(st2);
    assert st2.failed == [FailedFile(Str(a), FileNotFound)];
    assert |st2.uploaded| == 1 && st2.uploaded[0].ossPath == RemoteKey(env.taskId, b);
    assert st2.totalSize == files[Join(env.outputDir, b)];
    var r := UploadFiles(env, files, Object(kinds));
    assert r == Success(Report(StatusPartial, env.taskId, 1, 1, st2.totalSize, st2.uploaded, st2.failed));
    assert Object(kinds) == Object([("images", Array([entryA, entryB]))]);
  }

  // ----- the node ------------------------------------------------------------

  datatype UploadError =
    | MissingSdk
    | ClientFailed(detail: string)
    | InvalidJson(text: string)
    | Aborted(abort: Abort)

  /** The node's answer, serialised by the source as one JSON string. */
  datatype NodeResult = Reported(report: Report) | ErrorReport(error: UploadError)

  /** The `message` of an error answer. A client that cannot be built is
      reported by its exception's own text; an abort by the text of the
      `AttributeError` a non-object raises. */
  function ErrorMessage(e: UploadError): (m: string)
    ensures e.InvalidJson? ==> StartsWith(m, "Invalid file_list JSON: ") && EndsWith(m, e.text)
    ensures e.MissingSdk? || e.Aborted? ==> !StartsWith(m, "Invalid file_list JSON: ")
    ensures e.ClientFailed? ==> m == e.detail
    ensures e.Aborted? ==> (EndsWith(m, "'items'") <==> e.abort.ManifestNotObject?)
  {
    match e
    case MissingSdk =>
      var m := "oss2 module not found, " + "please install: pip install oss2";
      DiffersAt(m, "Invalid file_list JSON: ", 0);
      m
    case ClientFailed(d) => d
    case InvalidJson(text) =>
      JoinedEnds("Invalid file_list JSON: ", text, "");
      "Invalid file_list JSON: " + text
    case Aborted(ManifestNotObject) =>
      var m := "object has no attribute 'items'";
      DiffersAt(m, "Invalid file_list JSON: ", 0);
      m
    case Aborted(EntryNotObject(_, _)) =>
      var m := "object has no attribute 'get'";
      DiffersAt(m, "Invalid file_list JSON: ", 0);
      m
  }

  function ResultStatus(r: NodeResult): Status {
    match r
    case Reported(report) => report.status
    case ErrorReport(_) => StatusError
  }

  /** `upload`: `haveSdk` says whether the SDK imported, `clientError` whether
      building the client raised, and `parsed` is `json.loads(fileList)`, or
      `None` when that raised a decode error. */
  function Upload(haveSdk: bool, clientError: Option<string>, env: Env, files: FileSystem,
                  fileList: string, parsed: Option<Json>): (r: NodeResult)
    ensures !haveSdk ==> r == ErrorReport(MissingSdk)
    ensures haveSdk && clientError.None? && parsed.None? ==>
              r.ErrorReport? && ErrorMessage(r.error) == "Invalid file_list JSON: " + fileList
    ensures ResultStatus(r) == StatusError <==> r.ErrorReport?
    ensures haveSdk && clientError.Some? ==> r == ErrorReport(ClientFailed(clientError.value))
    ensures haveSdk && clientError.None? && parsed.Some? ==>
              match UploadFiles(env, files, parsed.value)
              case Success(report) => r == Reported(report)
              case Failure(abort) => r == ErrorReport(Aborted(abort))
    ensures r.Reported? ==>
              haveSdk && clientError.None? && parsed.Some? && UploadFiles(env, files, parsed.value) == Success(r.report)
  {
    if !haveSdk then ErrorReport(MissingSdk)
    else if clientError.Some? then ErrorReport(ClientFailed(clientError.value))
    else if parsed.None? then ErrorReport(InvalidJson(fileList))
    else
      match UploadFiles(env, files, parsed.value)
      case Success(report) => Reported(report)
      case Failure(abort) => ErrorReport(Aborted(abort))
  }
}
