/**
 * The project cache `.project_cache.json` that `set_cache` writes from the local
 * states of `sync_items`, and the comparison `show_status` makes between a cache
 * and a fresh local scan.
 */
module Cache {
  import opened Wrappers
  import opened Items
  import opened Reconcile

  /** The cache document: the two roots, the local state of every file and of every folder
   *  (as `to_dict` writes them), and the statistics. The timestamp and the version string
   *  are not modelled. */
  datatype Cache = Cache(
    localPath: string,
    cloudPath: string,
    files: map<string, Record>,
    dirs: map<string, Record>,
    totalFiles: nat,
    totalDirectories: nat,
    totalSize: int)

  /** The `to_dict` of every item whose local type is 'file'. */
  function FilesOf(t: Table): (r: map<string, Record>)
    ensures forall p :: p in r <==> p in t.items && t.items[p].local.kind == File
    ensures forall p :: p in r ==> r[p] == AsDict(t.items[p].local)
  {
    map p | p in t.items && t.items[p].local.kind == File :: AsDict(t.items[p].local)
  }

  /** The `to_dict` of every item whose local type is 'dir'. */
  function DirsOf(t: Table): (r: map<string, Record>)
    ensures forall p :: p in r <==> p in t.items && t.items[p].local.kind == Dir
    ensures forall p :: p in r ==> r[p] == AsDict(t.items[p].local)
  {
    map p | p in t.items && t.items[p].local.kind == Dir :: AsDict(t.items[p].local)
  }

  /** The local sizes of the files among `paths`, added up in order. */
  function SizeOf(items: map<string, Pair>, paths: seq<string>): (n: int)
    requires forall p :: p in paths ==> p in items
    ensures (forall p :: p in paths ==> items[p].local.size >= 0) ==> n >= 0
    ensures (forall p :: p in paths ==> items[p].local.kind != File) ==> n == 0
  {
    if paths == [] then 0
    else
      var p := paths[|paths| - 1];
      assert p in paths;
      SizeOf(items, paths[..|paths| - 1]) + (if items[p].local.kind == File then items[p].local.size else 0)
  }

  /** The loop `set_cache` and `show_status` share, after going through `paths`: the
   *  `to_dict` of each file and of each folder among them. */
  function Collected(items: map<string, Pair>, paths: seq<string>): (r: (map<string, Record>, map<string, Record>))
    requires forall p :: p in paths ==> p in items
  {
    if paths == [] then (map[], map[])
    else
      var n := |paths| - 1;
      var p := paths[n];
      assert p in paths;
      var front := Collected(items, paths[..n]);
      var s := items[p].local;
      if s.kind == File then (front.0[p := AsDict(s)], front.1)
      else if s.kind == Dir then (front.0, front.1[p := AsDict(s)])
      else front
  }

  /** Going through the whole order of a well-formed dictionary collects `FilesOf` and
   *  `DirsOf`. */
  lemma {:induction false} CollectedPrefix(items: map<string, Pair>, paths: seq<string>)
    requires forall p :: p in paths ==> p in items
    ensures var r := Collected(items, paths);
      && (forall p :: p in r.0 <==> p in paths && items[p].local.kind == File)
      && (forall p :: p in r.1 <==> p in paths && items[p].local.kind == Dir)
      && (forall p :: p in r.0 ==> r.0[p] == AsDict(items[p].local))
      && (forall p :: p in r.1 ==> r.1[p] == AsDict(items[p].local))
    decreases |paths|
  {
    if paths != [] {
      var n := |paths| - 1;
      assert paths == paths[..n] + [paths[n]];
      CollectedPrefix(items, paths[..n]);
    }
  }

  lemma CollectedAll(t: Table)
    requires TableOk(t)
    ensures Collected(t.items, t.order) == (FilesOf(t), DirsOf(t))
  {
    CollectedPrefix(t.items, t.order);
    var r := Collected(t.items, t.order);
    assert r.0 == FilesOf(t) by {
      assert r.0.Keys == FilesOf(t).Keys;
    }
    assert r.1 == DirsOf(t) by {
      assert r.1.Keys == DirsOf(t).Keys;
    }
  }

  /** What `set_cache` writes for a dictionary: files and folders apart, their counts, and
   *  the total size of the files. */
  function CacheOf(t: Table, localRoot: string, cloudRoot: string): (c: Cache)
    requires forall p :: p in t.order ==> p in t.items
    ensures c.files.Keys !! c.dirs.Keys
    ensures c.totalFiles == |c.files| && c.totalDirectories == |c.dirs|
    ensures c.localPath == localRoot && c.cloudPath == cloudRoot
  {
    var files := FilesOf(t);
    var dirs := DirsOf(t);
    Cache(localRoot, cloudRoot, files, dirs, |files|, |dirs|, SizeOf(t.items, t.order))
  }

  /** What `show_status` reports: nothing to compare with (no cache), a scan that raised,
   *  or the five sets of differences. */
  datatype Status =
    | NoCache
    | ScanFailed
    | Report(newFiles: set<string>, removedFiles: set<string>, newDirs: set<string>, removedDirs: set<string>, changedFiles: set<string>)

  /** `cache_file_info.get('md5', '')`. */
  function Md5Of(r: Record): string
  {
    r.md5.GetOr("")
  }

  /** The comparison of a cache with the current local states: new and removed files and
   *  folders by path, and the files present on both sides whose digests differ. */
  function Diff(c: Cache, t: Table): (s: Status)
    ensures s.Report?
    ensures forall p :: p in s.newFiles <==> p in t.items && t.items[p].local.kind == File && p !in c.files
    ensures forall p :: p in s.removedFiles <==> p in c.files && !(p in t.items && t.items[p].local.kind == File)
    ensures forall p :: p in s.newDirs <==> p in t.items && t.items[p].local.kind == Dir && p !in c.dirs
    ensures forall p :: p in s.removedDirs <==> p in c.dirs && !(p in t.items && t.items[p].local.kind == Dir)
    ensures forall p :: p in s.changedFiles <==> p in c.files && p in t.items && t.items[p].local.kind == File && Md5Of(c.files[p]) != t.items[p].local.md5
  {
    var files := FilesOf(t);
    var dirs := DirsOf(t);
    Report(
      files.Keys - c.files.Keys,
      c.files.Keys - files.Keys,
      dirs.Keys - c.dirs.Keys,
      c.dirs.Keys - dirs.Keys,
      set p | p in c.files.Keys * files.Keys && Md5Of(c.files[p]) != Md5Of(files[p]))
  }

  /** `not any([new_files, removed_files, new_dirs, removed_dirs, changed_files])`. */
  predicate InSync(s: Status)
    requires s.Report?
  {
    s.newFiles == {} && s.removedFiles == {} && s.newDirs == {} && s.removedDirs == {} && s.changedFiles == {}
  }

  /** The project is reported in sync exactly when the cache lists the same files and the
   *  same folders as the disk, with the same digest for every file. */
  lemma InSyncIff(c: Cache, t: Table)
    ensures InSync(Diff(c, t)) <==>
      && c.files.Keys == FilesOf(t).Keys
      && c.dirs.Keys == DirsOf(t).Keys
      && forall p :: p in c.files && p in t.items ==> Md5Of(c.files[p]) == t.items[p].local.md5
  {
    var s := Diff(c, t);
    var files := FilesOf(t);
    if InSync(s) {
      forall p ensures p in c.files.Keys <==> p in files.Keys {
        assert p !in s.newFiles && p !in s.removedFiles;
      }
      forall p ensures p in c.dirs.Keys <==> p in DirsOf(t).Keys {
        assert p !in s.newDirs && p !in s.removedDirs;
      }
      forall p | p in c.files && p in t.items ensures Md5Of(c.files[p]) == t.items[p].local.md5 {
        assert p !in s.changedFiles;
        assert p in files;
      }
    }
  }

  /** Right after `set_cache` wrote the cache for a dictionary, comparing it with that same
   *  dictionary reports no change. */
  lemma OwnCacheInSync(t: Table, localRoot: string, cloudRoot: string)
    requires forall p :: p in t.order ==> p in t.items
    ensures InSync(Diff(CacheOf(t, localRoot, cloudRoot), t))
  {
    var c := CacheOf(t, localRoot, cloudRoot);
    forall p | p in c.files && p in t.items ensures Md5Of(c.files[p]) == t.items[p].local.md5 {
      assert c.files[p] == AsDict(t.items[p].local);
    }
    InSyncIff(c, t);
  }

  /** A file whose content changed after the cache was written is reported as changed. */
  lemma EditedFileReported(t: Table, localRoot: string, cloudRoot: string, p: string, u: Table)
    requires forall q :: q in t.order ==> q in t.items
    requires p in t.items && t.items[p].local.kind == File
    requires p in u.items && u.items[p].local.kind == File
    requires u.items[p].local.md5 != t.items[p].local.md5
    ensures p in Diff(CacheOf(t, localRoot, cloudRoot), u).changedFiles
  {
    assert CacheOf(t, localRoot, cloudRoot).files[p] == AsDict(t.items[p].local);
  }
}
