/**
 * `SyncProject`: one project's local folder and its cloud folder `app:/<category>/<project>`.
 * It scans both sides into `sync_items`, files every item into the matrix, writes the
 * cache, compares a scan with the cache, and runs the phases of `sync_save` and
 * `sync_load`. The local disk is given as a tree, the cloud as the listing the client
 * returns for each folder, and the outcome of every operation as the set of paths on
 * which it succeeds.
 */
module Project {
  import opened Wrappers
  import opened Strings
  import opened Order
  import opened Items
  import opened Ignore
  import opened Reconcile
  import opened Scan
  import opened CloudScan
  import opened Cache

  const IgnoreFileName := ".syncignore"

  /** The node of the first entry with the given name. */
  function Lookup(entries: seq<Entry>, name: string): (r: Option<Node>)
    ensures r.Some? ==> exists i :: 0 <= i < |entries| && entries[i].name == name && entries[i].node == r.value
    ensures r.None? ==> forall i :: 0 <= i < |entries| ==> entries[i].name != name
  {
    if entries == [] then None
    else if entries[0].name == name then Some(entries[0].node)
    else
      var r := Lookup(entries[1..], name);
      assert r.Some? ==> exists i :: 1 <= i < |entries| && entries[i].name == name && entries[i].node == r.value by {
        if r.Some? {
          var i :| 0 <= i < |entries[1..]| && entries[1..][i].name == name && entries[1..][i].node == r.value;
          assert entries[i + 1] == entries[1..][i];
        }
      }
      r
  }

  /** An entry added under a name no entry has yet is found under that name. */
  lemma {:induction false} LookupAppended(entries: seq<Entry>, name: string, node: Node)
    requires Lookup(entries, name).None?
    ensures Lookup(entries + [Entry(name, node)], name) == Some(node)
    decreases |entries|
  {
    if entries != [] {
      assert (entries + [Entry(name, node)])[1..] == entries[1..] + [Entry(name, node)];
      assert Lookup(entries[1..], name).None?;
      LookupAppended(entries[1..], name, node);
    }
  }

  /** How the preparation of `local_scan` ends: `FileExistsError` for a root that is a file
   *  or a `.syncignore` that is a folder, otherwise the root folder to walk and the text
   *  of its `.syncignore`. */
  datatype Prepared = RootIsFile | IgnoreFileIsDir | Ready(root: Node, rulesText: string)

  /** The `.syncignore` `local_scan` writes when there is none. */
  function DefaultIgnoreFile(digest: string): Node
  {
    FileNode(digest, |DefaultRulesText|, DefaultRulesText)
  }

  /** The preparation of `local_scan`: a missing root is created, a missing `.syncignore` is
   *  written with the default rules (`digest` is the MD5 the disk then reports for it). */
  function Prepare(disk: Option<Node>, digest: string): (r: Prepared)
    ensures r == RootIsFile <==> disk.Some? && disk.value.FileNode?
    ensures r.Ready? ==> r.root.DirNode? && Lookup(r.root.entries, IgnoreFileName).Some?
    ensures r.Ready? ==> var f := Lookup(r.root.entries, IgnoreFileName).value; f.FileNode? && f.text == r.rulesText
    ensures disk.None? ==> r.Ready? && r.rulesText == DefaultRulesText
    ensures disk.None? ==> r.root == DirNode([Entry(IgnoreFileName, DefaultIgnoreFile(digest))])
    ensures r == IgnoreFileIsDir <==>
      disk.Some? && disk.value.DirNode? && Lookup(disk.value.entries, IgnoreFileName).Some? && Lookup(disk.value.entries, IgnoreFileName).value.DirNode?
    ensures r.Ready? && disk.Some? && Lookup(disk.value.entries, IgnoreFileName).Some? ==>
      r.root == disk.value && r.rulesText == Lookup(disk.value.entries, IgnoreFileName).value.text
    ensures r.Ready? && disk.Some? && Lookup(disk.value.entries, IgnoreFileName).None? ==>
      r.root.entries == disk.value.entries + [Entry(IgnoreFileName, DefaultIgnoreFile(digest))] && r.rulesText == DefaultRulesText
    ensures disk.Some? && disk.value.DirNode? && r != IgnoreFileIsDir ==> r.Ready?
  {
    var root := if disk.None? then DirNode([]) else disk.value;
    if root.FileNode? then RootIsFile
    else
      match Lookup(root.entries, IgnoreFileName)
      case None =>
        LookupAppended(root.entries, IgnoreFileName, DefaultIgnoreFile(digest));
        Ready(DirNode(root.entries + [Entry(IgnoreFileName, DefaultIgnoreFile(digest))]), DefaultRulesText)
      case Some(node) =>
        if node.DirNode? then IgnoreFileIsDir else Ready(root, node.text)
  }

  /** The dictionary after `local_scan` walked a prepared root with its rules. */
  function LocalScanned(t: Table, localRoot: string, cloudRoot: string, prep: Prepared): (r: Table)
    requires prep.Ready? && prep.root.DirNode?
    ensures TableOk(t) ==> TableOk(r)
    ensures t.items.Keys <= r.items.Keys
  {
    var vs := Visit(IgnoredBy(RulesOf(prep.rulesText)), "", prep.root, |prep.root.entries|);
    LocalUpsertsKeys(t, localRoot, cloudRoot, vs);
    LocalUpsertsOrder(t, localRoot, cloudRoot, vs);
    LocalUpserts(t, localRoot, cloudRoot, vs)
  }

  /** The file `set_cache` writes into the project folder. */
  const CacheFileName := ".project_cache.json"

  /** The cache file's name is a plain top-level name outside `.git`. */
  lemma CacheFileNameOutsideGit(git: string, name: string)
    requires git == GitDir && name == CacheFileName
    ensures name != [] && name[0] != '/' && '\\' !in name
    ensures name != git && !StartsWith(name, git + "/")
  {
    assert name[1] == 'p' && (git + "/")[1] == 'g';
  }

  /** The default rules do not ignore the cache file. */
  lemma CacheFileNotIgnored(git: string, name: string)
    requires git == GitDir && name == CacheFileName
    ensures !Ignored(RulesOf(git + "\n"), name, false)
  {
    CacheFileNameOutsideGit(git, name);
    DefaultRulesIgnoreGit(git, name, false);
  }

  /** `set_cache` writes `.project_cache.json` into the very folder `local_scan` walks, and
   *  the default rules only ignore `.git`. So a scan of a root that holds the cache file
   *  (and whose paths are distinct) records it as a local file, and a cache that does not
   *  list it reports it as a new file. */
  lemma CacheFileReportedAsNew(t: Table, localRoot: string, cloudRoot: string, prep: Prepared, i: nat, c: Cache)
    requires prep.Ready? && prep.root.DirNode? && prep.rulesText == DefaultRulesText
    requires i < |prep.root.entries| && prep.root.entries[i].name == CacheFileName && prep.root.entries[i].node.FileNode?
    requires var vs := Visit(IgnoredBy(RulesOf(prep.rulesText)), "", prep.root, |prep.root.entries|);
      forall j, k :: 0 <= j < k < |vs| ==> vs[j].0 != vs[k].0
    requires CacheFileName !in c.files
    ensures CacheFileName in Diff(c, LocalScanned(t, localRoot, cloudRoot, prep)).newFiles
  {
    var skip := IgnoredBy(RulesOf(prep.rulesText));
    var vs := Visit(skip, "", prep.root, |prep.root.entries|);
    var e := prep.root.entries[i];
    assert ChildPath("", e.name) == CacheFileName;
    CacheFileNotIgnored(GitDir, CacheFileName);
    GitDirIsPlain(GitDir);
    assert !skip(CacheFileName, false);
    VisitTakesVisibleEntries(skip, "", prep.root, |prep.root.entries|, i);
    assert (CacheFileName, e.node) in vs;
    var j :| 0 <= j < |vs| && vs[j] == (CacheFileName, e.node);
    LocalUpsertsAgree(t, localRoot, cloudRoot, vs, j);
  }

  /** The dictionary is well formed, the matrix has all nine cells, and every path it files
   *  is an item of the dictionary. */
  ghost predicate Consistent(t: Table, m: map<Cell, seq<string>>)
  {
    && TableOk(t)
    && (forall c :: c in AllCells ==> c in m)
    && (forall c, p :: c in m && p in m[c] ==> p in t.items)
  }

  /** A well-formed dictionary that only gained items keeps the matrix consistent. */
  lemma GrownConsistent(t: Table, u: Table, m: map<Cell, seq<string>>)
    requires Consistent(t, m) && TableOk(u) && t.items.Keys <= u.items.Keys
    ensures Consistent(u, m)
  {
  }

  /** A consistent matrix has a list for every cell there is. */
  lemma EveryCellFiled(t: Table, m: map<Cell, seq<string>>)
    requires Consistent(t, m)
    ensures forall c: Cell :: c in m
  {
    forall c: Cell ensures c in m {
      AllCellsComplete(c);
    }
  }

  /** The three phases of `plan` took the dictionary `t0` to `t`, and the last phase made
   *  `transfers`: the handler of each phase ran once on every item its cells gather, the
   *  items of the last phase were submitted in cloud-path order. */
  ghost predicate Executed(plan: seq<Phase>, m: map<Cell, seq<string>>, t0: Table, t: Table, ok: set<string>, transfers: seq<Transfer>)
    requires |plan| == 3
  {
    && (forall c: Cell :: c in m)
    && (forall c, p :: c in m && p in m[c] ==> p in t0.items)
    && t.order == t0.order
    && t.items == PlanApplied(plan, m, t0.items, ok)
    && var last := SortBy(Gather(m, plan[2].cells), CloudKey(CloudPaths(t0.items)));
       && (forall p :: p in last <==> p in Gather(m, plan[2].cells))
       && transfers == TransfersOf(plan[2].handler, PlanApplied(plan[..2], m, t0.items, ok), last)
  }

  class SyncProject {
    /** `os.path.join(category, project)`. */
    const relative: string
    /** `Path(base_path) / relative_path`. */
    const localRoot: string
    /** `Path("app:") / relative_path`. */
    const cloudRoot: string
    const ignore: SyncIgnore
    /** `sync_items`. */
    var table: Table
    /** `items_need_for_update`. */
    var matrix: map<Cell, seq<string>>
    /** The content of `.project_cache.json`: `None` when there is none (or it cannot be read). */
    var cacheFile: Option<Cache>

    ghost predicate Valid()
      reads this
    {
      Consistent(table, matrix)
    }

    /** A project with no items, an empty matrix and no rules yet; `cacheOnDisk` is what the
     *  disk holds as the cache file. */
    constructor(base: string, category: string, project: string, cacheOnDisk: Option<Cache>)
      ensures Valid() && fresh(ignore)
      ensures relative == PathJoin(category, project)
      ensures localRoot == PathJoin(base, relative) && cloudRoot == PathJoin("app:", relative)
      ensures table == EmptyTable && matrix == EmptyMatrix && cacheFile == cacheOnDisk
      ensures ignore.rules == RulesOf("")
    {
      relative := PathJoin(category, project);
      localRoot := PathJoin(base, PathJoin(category, project));
      cloudRoot := PathJoin("app:", PathJoin(category, project));
      ignore := new SyncIgnore("");
      table := EmptyTable;
      matrix := EmptyMatrix;
      cacheFile := cacheOnDisk;
    }

    /** `_scan_local_items(current)` on the folder `dir` found at `current`. */
    method ScanLocalItems(current: string, dir: Node, ghost skip: (string, bool) -> bool)
      requires dir.DirNode? && Decides(skip, ignore.rules)
      modifies this
      ensures matrix == old(matrix) && cacheFile == old(cacheFile)
      ensures table == LocalUpserts(old(table), localRoot, cloudRoot, Visit(skip, current, dir, |dir.entries|))
      decreases dir, 1
    {
      ghost var t0 := table;
      var i := 0;
      while i < |dir.entries|
        invariant 0 <= i <= |dir.entries|
        invariant matrix == old(matrix) && cacheFile == old(cacheFile)
        invariant Decides(skip, ignore.rules)
        invariant table == LocalUpserts(t0, localRoot, cloudRoot, Visit(skip, current, dir, i))
        decreases |dir.entries| - i
      {
        ghost var before := table;
        assert dir.entries[i] in dir.entries;
        ScanEntry(current, dir.entries[i], skip);
        LocalUpsertsStep(t0, localRoot, cloudRoot, skip, current, dir, i, before, table);
        i := i + 1;
      }
    }

    /** One iteration of `_scan_local_items(current)`: the entry `e` is skipped when ignored;
     *  otherwise its item is created if missing, its local state recomputed, and a folder
     *  is walked in turn. */
    method ScanEntry(current: string, e: Entry, ghost skip: (string, bool) -> bool)
      requires Decides(skip, ignore.rules)
      modifies this
      ensures matrix == old(matrix) && cacheFile == old(cacheFile)
      ensures table == LocalUpserts(old(table), localRoot, cloudRoot, VisitEntry(skip, current, e))
      decreases e.node, 2
    {
      var rel := ChildPath(current, e.name);
      var isDir := e.node.DirNode?;
      var skipped := ignore.ShouldIgnore(rel, isDir);
      if !skipped {
        ghost var t0 := table;
        table := LocalUpsert(table, localRoot, cloudRoot, (rel, e.node));
        assert table == LocalUpserts(t0, localRoot, cloudRoot, [(rel, e.node)]) by {
          assert [(rel, e.node)][..0] == [];
        }
        if isDir {
          ScanLocalItems(rel, e.node, skip);
          LocalUpsertsAppend(t0, localRoot, cloudRoot, [(rel, e.node)], Visit(skip, rel, e.node, |e.node.entries|));
        } else {
          assert [(rel, e.node)] + [] == [(rel, e.node)];
        }
      }
    }

    /** `local_scan`: prepare the root and `.syncignore`, read the rules, walk the tree. */
    method LocalScan(disk: Option<Node>, digest: string) returns (prep: Prepared)
      requires Valid()
      modifies this, ignore
      ensures Valid() && matrix == old(matrix) && cacheFile == old(cacheFile)
      ensures prep == Prepare(disk, digest)
      ensures prep.Ready? ==> ignore.rules == RulesOf(prep.rulesText) && table == LocalScanned(old(table), localRoot, cloudRoot, prep)
      ensures !prep.Ready? ==> table == old(table) && ignore.rules == old(ignore.rules)
    {
      prep := Prepare(disk, digest);
      if prep.Ready? {
        ignore.ParseRules(prep.rulesText);
        ghost var t0 := table;
        IgnoredByDecides(ignore.rules);
        ScanLocalItems("", prep.root, IgnoredBy(ignore.rules));
        ghost var vs := Visit(IgnoredBy(ignore.rules), "", prep.root, |prep.root.entries|);
        LocalUpsertsKeys(t0, localRoot, cloudRoot, vs);
        LocalUpsertsOrder(t0, localRoot, cloudRoot, vs);
        GrownConsistent(t0, table, matrix);
      }
    }

    /** `process_folder_items` after the test that the folder was not scanned yet: file
     *  every unskipped entry, and collect the unskipped subfolders. */
    method ProcessFolder(folder: string, entries: seq<CloudEntry>, ghost skip: (string, bool) -> bool) returns (subfolders: seq<string>)
      requires Decides(skip, ignore.rules)
      modifies this
      ensures matrix == old(matrix) && cacheFile == old(cacheFile)
      ensures table == FileListing(old(table), localRoot, cloudRoot, skip, folder, entries, |entries|)
      ensures subfolders == Subfolders(skip, folder, entries, |entries|)
    {
      ghost var t0 := table;
      subfolders := [];
      var i := 0;
      while i < |entries|
        invariant 0 <= i <= |entries|
        invariant matrix == old(matrix) && cacheFile == old(cacheFile)
        invariant table == FileListing(t0, localRoot, cloudRoot, skip, folder, entries, i)
        invariant subfolders == Subfolders(skip, folder, entries, i)
        decreases |entries| - i
      {
        var sub := ProcessEntry(folder, entries[i], skip);
        subfolders := subfolders + sub;
        i := i + 1;
      }
    }

    /** One iteration of `process_folder_items`: an entry the verdict does not skip is
     *  filed, and yields its path when its type is 'dir'. */
    method ProcessEntry(folder: string, e: CloudEntry, ghost skip: (string, bool) -> bool) returns (sub: seq<string>)
      requires Decides(skip, ignore.rules)
      modifies this
      ensures matrix == old(matrix) && cacheFile == old(cacheFile)
      ensures var rel := ChildOf(folder, e);
        && table == (if skip(rel, IsFolder(e)) then old(table) else CloudUpsert(old(table), localRoot, cloudRoot, rel, e))
        && sub == (if IsFolder(e) && !skip(rel, true) then [rel] else [])
    {
      var rel := ChildOf(folder, e);
      var isDir := IsFolder(e);
      var skipped := ignore.ShouldIgnore(rel, isDir);
      sub := [];
      if !skipped {
        table := CloudUpsert(table, localRoot, cloudRoot, rel, e);
        if isDir {
          sub := [rel];
        }
      }
    }

    /** One pass of the `while folders_to_scan` loop of `_scan_cloud_items_parallel`: every
     *  folder of the batch whose listing succeeded and that was not scanned yet is marked
     *  scanned and its entries filed, and the subfolders it yields that are not scanned
     *  are queued for the next pass. */
    method ScanWave(listing: map<string, seq<CloudEntry>>, batch: seq<string>, scanned0: set<string>, ghost skip: (string, bool) -> bool, ghost t0: Table, ghost processed0: seq<string>)
      returns (scanned: set<string>, pending: seq<string>, ghost processed: seq<string>)
      requires Decides(skip, ignore.rules)
      requires WaveInv(skip, listing, t0, table, localRoot, cloudRoot, processed0, scanned0, scanned0, [], batch, 0)
      modifies this
      ensures matrix == old(matrix) && cacheFile == old(cacheFile)
      ensures WaveInv(skip, listing, t0, table, localRoot, cloudRoot, processed, scanned, scanned, [], pending, 0)
      ensures pending == [] || Unvisited(skip, listing, scanned) < Unvisited(skip, listing, scanned0)
      ensures Unvisited(skip, listing, scanned) <= Unvisited(skip, listing, scanned0)
    {
      scanned, pending, processed := scanned0, [], processed0;
      var j := 0;
      while j < |batch|
        invariant matrix == old(matrix) && cacheFile == old(cacheFile)
        invariant Decides(skip, ignore.rules)
        invariant WaveInv(skip, listing, t0, table, localRoot, cloudRoot, processed, scanned, scanned0, pending, batch, j)
        decreases |batch| - j
      {
        var f := batch[j];
        if f in listing && f !in scanned {
          ghost var before := table;
          var subs := ProcessFolder(f, listing[f], skip);
          WaveInvProcess(skip, listing, t0, before, table, localRoot, cloudRoot, processed, scanned, scanned0, pending, batch, j);
          scanned := scanned + {f};
          pending := pending + Unscanned(subs, scanned);
          processed := processed + [f];
        } else {
          WaveInvPass(skip, listing, t0, table, localRoot, cloudRoot, processed, scanned, scanned0, pending, batch, j);
        }
        j := j + 1;
      }
      WaveInvNext(skip, listing, t0, table, localRoot, cloudRoot, processed, scanned, scanned0, pending, batch);
    }

    /** `_scan_cloud_items_parallel`: starting from the root, list folders wave by wave
     *  until nothing is queued. The folders listed are exactly those reachable from the
     *  root through listed, unskipped subfolders, each once and the root first; the
     *  dictionary gains exactly the paths their listings file. */
    method ScanCloudItems(listing: map<string, seq<CloudEntry>>, ghost skip: (string, bool) -> bool) returns (ghost processed: seq<string>)
      requires Valid() && Decides(skip, ignore.rules)
      modifies this
      ensures Valid() && matrix == old(matrix) && cacheFile == old(cacheFile)
      ensures Distinct(processed) && forall f :: f in processed ==> f in listing
      ensures Discovered(skip, listing, processed)
      ensures Closed(skip, listing, processed, {})
      ensures "" in listing <==> processed != []
      ensures Grown(old(table), table, localRoot, cloudRoot, skip, listing, processed)
    {
      ghost var t0 := table;
      var scanned: set<string> := {};
      var pending := [""];
      processed := [];
      WaveInvStart(skip, listing, t0, localRoot, cloudRoot);
      while pending != []
        invariant matrix == old(matrix) && cacheFile == old(cacheFile)
        invariant Decides(skip, ignore.rules)
        invariant WaveInv(skip, listing, t0, table, localRoot, cloudRoot, processed, scanned, scanned, [], pending, 0)
        decreases Unvisited(skip, listing, scanned), |pending|
      {
        scanned, pending, processed := ScanWave(listing, pending, scanned, skip, t0, processed);
      }
      WaveInvDone(skip, listing, t0, table, localRoot, cloudRoot, processed, scanned);
      GrownConsistent(t0, table, matrix);
    }

    /** `cloud_scan`: scan the cloud with the project's rules, then file the items that
     *  need work. */
    method CloudScan(listing: map<string, seq<CloudEntry>>) returns (ghost processed: seq<string>)
      requires Valid()
      modifies this
      ensures Valid() && cacheFile == old(cacheFile)
      ensures Discovered(IgnoredBy(ignore.rules), listing, processed)
      ensures Closed(IgnoredBy(ignore.rules), listing, processed, {})
      ensures Grown(old(table), table, localRoot, cloudRoot, IgnoredBy(ignore.rules), listing, processed)
      ensures matrix == Classified(old(matrix), table.items, table.order)
    {
      IgnoredByDecides(ignore.rules);
      processed := ScanCloudItems(listing, IgnoredBy(ignore.rules));
      Classify();
    }

    /** The classification loop of `cloud_scan`: every item that needs work is appended,
     *  in dictionary order, to the list of its cell. */
    method Classify()
      requires Valid()
      modifies this
      ensures Valid() && table == old(table) && cacheFile == old(cacheFile)
      ensures matrix == Classified(old(matrix), table.items, table.order)
    {
      ghost var m0 := matrix;
      var i := 0;
      while i < |table.order|
        invariant 0 <= i <= |table.order|
        invariant table == old(table) && cacheFile == old(cacheFile)
        invariant matrix == Classified(m0, table.items, table.order[..i])
        decreases |table.order| - i
      {
        var p := table.order[i];
        assert table.order[..i + 1][..i] == table.order[..i];
        var pair := table.items[p];
        if NeedsUpdate(pair) {
          var c := CellOf(pair);
          matrix := matrix[c := matrix[c] + [p]];
        }
        i := i + 1;
      }
      assert table.order[..i] == table.order;
      ClassifiedIsFiled(m0, table.items, table.order);
      forall c, p | c in matrix && p in matrix[c] ensures p in table.items {
        if c in AllCells {
          assert p in m0[c] || p in Filed(table.items, table.order, c);
        }
      }
    }

    /** `multythread_operation(handler, *items)`: nothing happens for no items; otherwise
     *  a pool of `min(THREADS_COUNT, len(items))` workers is started, the items are
     *  submitted sorted by cloud path, and the handler runs once on each. The operation on
     *  a path succeeds when the path is in `ok`. */
    method RunPhase(h: Handler, paths: seq<string>, ok: set<string>) returns (submitted: seq<string>, workers: nat, transfers: seq<Transfer>)
      requires Valid() && forall p :: p in paths ==> p in table.items
      modifies this
      ensures Valid() && matrix == old(matrix) && cacheFile == old(cacheFile)
      ensures table.order == old(table.order) && table.items == Applied(h, old(table.items), paths, ok)
      ensures paths == [] ==> submitted == [] && workers == 0
      ensures paths != [] ==> workers == PoolSize(|paths|) && 0 < workers <= ThreadsCount
      ensures submitted == SortBy(paths, CloudKey(CloudPaths(old(table.items))))
      ensures forall p :: p in submitted <==> p in paths
      ensures transfers == TransfersOf(h, old(table.items), submitted)
    {
      workers := if paths == [] then 0 else PoolSize(|paths|);
      submitted := SortBy(paths, CloudKey(CloudPaths(table.items)));
      SortByMembers(paths, CloudKey(CloudPaths(table.items)));
      ghost var t0 := table;
      transfers := RunHandler(h, submitted, ok);
      AppliedSameSet(h, t0.items, submitted, paths, ok);
      GrownConsistent(t0, table, matrix);
    }

    /** `sync_save`: scan locally, write the cache, scan the cloud, then remove from the
     *  cloud, create cloud folders and upload, each phase on the cells `SavePlan` names.
     *  A `FileExistsError` of the local scan ends it before anything else. The result is
     *  the list of uploads made. */
    method SyncSave(disk: Option<Node>, digest: string, writeOk: bool, listing: map<string, seq<CloudEntry>>, ok: set<string>)
      returns (prep: Prepared, uploads: seq<Transfer>, ghost scanned: Table, ghost processed: seq<string>)
      requires Valid()
      modifies this, ignore
      ensures Valid() && prep == Prepare(disk, digest)
      ensures !prep.Ready? ==> table == old(table) && matrix == old(matrix) && cacheFile == old(cacheFile) && uploads == []
      ensures prep.Ready? ==>
        var local := LocalScanned(old(table), localRoot, cloudRoot, prep);
        && ignore.rules == RulesOf(prep.rulesText)
        && cacheFile == (if writeOk then Some(CacheOf(local, localRoot, cloudRoot)) else old(cacheFile))
        && Grown(local, scanned, localRoot, cloudRoot, IgnoredBy(ignore.rules), listing, processed)
        && Discovered(IgnoredBy(ignore.rules), listing, processed)
        && Closed(IgnoredBy(ignore.rules), listing, processed, {})
        && matrix == Classified(old(matrix), scanned.items, scanned.order)
        && Executed(SavePlan, matrix, scanned, table, ok, uploads)
    {
      uploads := [];
      scanned := table;
      processed := [];
      prep := LocalScan(disk, digest);
      if !prep.Ready? {
        return;
      }
      SetCache(writeOk);
      processed := CloudScan(listing);
      scanned := table;
      uploads := RunPlan(SavePlan, ok);
    }

    /** `sync_load`: scan locally, scan the cloud, then remove locally, create local
     *  folders and download, each phase on the cells `LoadPlan` names. The result is the
     *  list of downloads made. */
    method SyncLoad(disk: Option<Node>, digest: string, listing: map<string, seq<CloudEntry>>, ok: set<string>)
      returns (prep: Prepared, downloads: seq<Transfer>, ghost scanned: Table, ghost processed: seq<string>)
      requires Valid()
      modifies this, ignore
      ensures Valid() && prep == Prepare(disk, digest) && cacheFile == old(cacheFile)
      ensures !prep.Ready? ==> table == old(table) && matrix == old(matrix) && downloads == []
      ensures prep.Ready? ==>
        var local := LocalScanned(old(table), localRoot, cloudRoot, prep);
        && ignore.rules == RulesOf(prep.rulesText)
        && Grown(local, scanned, localRoot, cloudRoot, IgnoredBy(ignore.rules), listing, processed)
        && Discovered(IgnoredBy(ignore.rules), listing, processed)
        && Closed(IgnoredBy(ignore.rules), listing, processed, {})
        && matrix == Classified(old(matrix), scanned.items, scanned.order)
        && Executed(LoadPlan, matrix, scanned, table, ok, downloads)
    {
      downloads := [];
      scanned := table;
      processed := [];
      prep := LocalScan(disk, digest);
      if !prep.Ready? {
        return;
      }
      processed := CloudScan(listing);
      scanned := table;
      downloads := RunPlan(LoadPlan, ok);
    }

    /** The three `multythread_operation` calls of `sync_save` or `sync_load`, one per
     *  phase of the plan; the result is what the last phase transferred. */
    method RunPlan(plan: seq<Phase>, ok: set<string>) returns (transfers: seq<Transfer>)
      requires Valid() && |plan| == 3
      modifies this
      ensures Valid() && matrix == old(matrix) && cacheFile == old(cacheFile)
      ensures Executed(plan, matrix, old(table), table, ok, transfers)
    {
      ghost var t0 := table;
      EveryCellFiled(table, matrix);
      PlanAppliedThree(plan, matrix, table.items, ok);
      var _, _, _ := RunPhase(plan[0].handler, Gather(matrix, plan[0].cells), ok);
      var _, _, _ := RunPhase(plan[1].handler, Gather(matrix, plan[1].cells), ok);
      AppliedKeepsCloudPaths(plan[0].handler, t0.items, Gather(matrix, plan[0].cells), ok);
      AppliedKeepsCloudPaths(plan[1].handler, PlanApplied(plan[..1], matrix, t0.items, ok), Gather(matrix, plan[1].cells), ok);
      var _, _, t := RunPhase(plan[2].handler, Gather(matrix, plan[2].cells), ok);
      transfers := t;
    }

    /** The handler run on each submitted path in turn; uploads and downloads record the
     *  transfer they make. */
    method RunHandler(h: Handler, submitted: seq<string>, ok: set<string>) returns (transfers: seq<Transfer>)
      requires forall p :: p in submitted ==> p in table.items
      modifies this
      ensures matrix == old(matrix) && cacheFile == old(cacheFile)
      ensures table.order == old(table.order) && table.items == Applied(h, old(table.items), submitted, ok)
      ensures transfers == TransfersOf(h, old(table.items), submitted)
    {
      var items0 := table.items;
      transfers := [];
      var i := 0;
      while i < |submitted|
        invariant 0 <= i <= |submitted|
        invariant matrix == old(matrix) && cacheFile == old(cacheFile)
        invariant table.order == old(table.order)
        invariant (table.items, transfers) == Handled(h, items0, submitted[..i], ok)
        decreases |submitted| - i
      {
        assert submitted[..i + 1][..i] == submitted[..i];
        assert submitted[i] in items0;
        var t := HandleOne(h, submitted[i], submitted[i] in ok);
        transfers := transfers + t;
        i := i + 1;
      }
      assert submitted[..i] == submitted;
      HandledIsApplied(h, items0, submitted, ok);
    }

    /** The handler run on one item: its state is updated and, for an upload or a
     *  download, the transfer between its two paths is made. */
    method HandleOne(h: Handler, p: string, ok: bool) returns (t: seq<Transfer>)
      requires p in table.items
      modifies this
      ensures matrix == old(matrix) && cacheFile == old(cacheFile)
      ensures table == Table(old(table.items)[p := Apply(h, old(table.items)[p], ok)], old(table.order))
      ensures t == TransferOf(h, old(table.items)[p])
    {
      var pair := table.items[p];
      t := [];
      if h == UploadH {
        t := [UploadTransfer(pair.local.path, pair.cloud.path)];
      } else if h == DownloadH {
        t := [DownloadTransfer(pair.local.path, pair.cloud.path)];
      }
      table := Table(table.items[p := Apply(h, pair, ok)], table.order);
    }

    /** The loop `set_cache` and `show_status` share: the `to_dict` of every item by its
     *  local type, and the total size of the files. */
    method CollectLocal() returns (files: map<string, Record>, dirs: map<string, Record>, totalSize: int)
      requires TableOk(table)
      ensures files == FilesOf(table) && dirs == DirsOf(table)
      ensures totalSize == SizeOf(table.items, table.order)
    {
      files, dirs, totalSize := Collect(table.items, table.order);
      CollectedAll(table);
    }

    /** `set_cache`: the cache built from the local states of the dictionary, kept when it
     *  can be written (`writeOk`); a failed write is reported and changes nothing. */
    method SetCache(writeOk: bool)
      requires Valid()
      modifies this
      ensures Valid() && table == old(table) && matrix == old(matrix)
      ensures cacheFile == if writeOk then Some(CacheOf(table, localRoot, cloudRoot)) else old(cacheFile)
    {
      var files, dirs, totalSize := CollectLocal();
      if writeOk {
        cacheFile := Some(Cache(localRoot, cloudRoot, files, dirs, |files|, |dirs|, totalSize));
      }
    }

    /** `show_status`: with no cache there is nothing to compare with; otherwise the local
     *  scan runs (and may raise), and the cache is compared with the scanned local states. */
    method ShowStatus(disk: Option<Node>, digest: string) returns (s: Status)
      requires Valid()
      modifies this, ignore
      ensures Valid() && matrix == old(matrix) && cacheFile == old(cacheFile)
      ensures old(cacheFile).None? ==> s == NoCache && table == old(table)
      ensures old(cacheFile).Some? && !Prepare(disk, digest).Ready? ==> s == ScanFailed
      ensures old(cacheFile).Some? && Prepare(disk, digest).Ready? ==>
        && table == LocalScanned(old(table), localRoot, cloudRoot, Prepare(disk, digest))
        && s == Diff(cacheFile.value, table)
    {
      if cacheFile.None? {
        return NoCache;
      }
      var prep := LocalScan(disk, digest);
      if !prep.Ready? {
        return ScanFailed;
      }
      var cache := cacheFile.value;
      var files, dirs, _ := CollectLocal();
      var changed := ChangedFiles(cache.files, files);
      s := Report(files.Keys - cache.files.Keys, cache.files.Keys - files.Keys, dirs.Keys - cache.dirs.Keys, cache.dirs.Keys - dirs.Keys, changed);
    }
  }

  /** The loop of `CollectLocal` over the paths in order. */
  method Collect(items: map<string, Pair>, paths: seq<string>) returns (files: map<string, Record>, dirs: map<string, Record>, totalSize: int)
    requires forall p :: p in paths ==> p in items
    ensures (files, dirs) == Collected(items, paths)
    ensures totalSize == SizeOf(items, paths)
  {
    files, dirs, totalSize := map[], map[], 0;
    var i := 0;
    while i < |paths|
      invariant 0 <= i <= |paths|
      invariant (files, dirs) == Collected(items, paths[..i])
      invariant totalSize == SizeOf(items, paths[..i])
      decreases |paths| - i
    {
      var p := paths[i];
      assert paths[..i + 1][..i] == paths[..i];
      var s := items[p].local;
      if s.kind == File {
        files := files[p := AsDict(s)];
        totalSize := totalSize + s.size;
      } else if s.kind == Dir {
        dirs := dirs[p := AsDict(s)];
      }
      i := i + 1;
    }
    assert paths[..i] == paths;
  }

  /** The loop over `cache_files_set & current_files_set` in `show_status`: the files on
   *  both sides whose recorded digests differ. */
  method ChangedFiles(cached: map<string, Record>, current: map<string, Record>) returns (changed: set<string>)
    ensures changed == set p | p in cached.Keys * current.Keys && Md5Of(cached[p]) != Md5Of(current[p])
  {
    changed := {};
    var rest := cached.Keys * current.Keys;
    while rest != {}
      invariant rest <= cached.Keys * current.Keys
      invariant forall p :: p in changed <==> p in cached.Keys * current.Keys && p !in rest && Md5Of(cached[p]) != Md5Of(current[p])
      decreases |rest|
    {
      var p :| p in rest;
      if Md5Of(cached[p]) != Md5Of(current[p]) {
        changed := changed + {p};
      }
      rest := rest - {p};
    }
  }
}
