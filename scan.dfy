/**
 * What the two scans of `SyncProject` record in `sync_items`: the local walk
 * `_scan_local_items` over a directory tree, and the per-folder step of the cloud
 * scan that files the entries of one listing.
 */
module Scan {
  import opened Wrappers
  import opened Strings
  import opened Items
  import opened Ignore
  import opened Reconcile

  // ------------------------------------------------------------- the local side

  /** What the local filesystem holds: a file (its digest, its size and its text) or a
   *  folder (its entries, in the order `iterdir` yields them). */
  datatype Node = FileNode(md5: string, size: nat, text: string) | DirNode(entries: seq<Entry>)

  datatype Entry = Entry(name: string, node: Node)

  /** What `calc_local_state` finds at the path of an existing node. */
  function FoundOf(n: Node): (f: Found)
    ensures f != Missing
    ensures f == FoundDir <==> n.DirNode?
    ensures n.FileNode? ==> f == FoundFile(n.md5, n.size)
  {
    match n
    case FileNode(md5, size, _) => FoundFile(md5, size)
    case DirNode(_) => FoundDir
  }

  /** A local state that agrees with the node on disk: its type, and for a file its digest
   *  and its size. */
  predicate Agrees(s: State, n: Node)
  {
    s.kind == (if n.DirNode? then Dir else File) && (n.FileNode? ==> s.md5 == n.md5 && s.size == n.size)
  }

  /** The verdict of `should_ignore` under the given rules, as a function of the path and
   *  of whether it is a folder. */
  function IgnoredBy(rules: seq<Rule>): (string, bool) -> bool
  {
    (p: string, isDir: bool) => Ignored(rules, p, isDir)
  }

  /** `skip` gives the verdict of `should_ignore` under `rules` on every path. The
   *  quantifier is instantiated only where that verdict is computed. */
  ghost predicate Decides(skip: (string, bool) -> bool, rules: seq<Rule>)
  {
    forall p, d {:trigger Ignored(rules, p, d)} :: skip(p, d) == Ignored(rules, p, d)
  }

  lemma IgnoredByDecides(rules: seq<Rule>)
    ensures Decides(IgnoredBy(rules), rules)
  {
  }

  /** The entries `_scan_local_items(current)` processes, in order, when `current` is the
   *  folder `dir` and the walk has reached its `k`-th entry: each entry that is not
   *  skipped, followed (for a folder) by everything the walk finds inside it. An ignored
   *  folder is not entered. */
  function Visit(skip: (string, bool) -> bool, current: string, dir: Node, k: nat): seq<(string, Node)>
    requires dir.DirNode? && k <= |dir.entries|
    decreases dir, k
  {
    if k == 0 then []
    else
      var e := dir.entries[k - 1];
      assert e in dir.entries;
      var rel := ChildPath(current, e.name);
      Visit(skip, current, dir, k - 1)
      + (if skip(rel, e.node.DirNode?) then []
         else [(rel, e.node)] + (if e.node.DirNode? then Visit(skip, rel, e.node, |e.node.entries|) else []))
  }

  /** What the walk records for one entry of the folder `current`: nothing when the verdict
   *  skips it, otherwise the entry and, for a folder, everything found inside it. */
  function VisitEntry(skip: (string, bool) -> bool, current: string, e: Entry): seq<(string, Node)>
  {
    var rel := ChildPath(current, e.name);
    if skip(rel, e.node.DirNode?) then []
    else [(rel, e.node)] + (if e.node.DirNode? then Visit(skip, rel, e.node, |e.node.entries|) else [])
  }

  /** One more entry of the folder: the walk so far, then what that entry contributes. */
  lemma VisitStep(skip: (string, bool) -> bool, current: string, dir: Node, i: nat)
    requires dir.DirNode? && i < |dir.entries|
    ensures dir.entries[i] in dir.entries
    ensures Visit(skip, current, dir, i + 1) == Visit(skip, current, dir, i) + VisitEntry(skip, current, dir.entries[i])
  {
  }

  /** The walk records nothing the verdict skips. */
  lemma {:induction false} VisitSkipsIgnored(skip: (string, bool) -> bool, current: string, dir: Node, k: nat)
    requires dir.DirNode? && k <= |dir.entries|
    ensures forall v :: v in Visit(skip, current, dir, k) ==> !skip(v.0, v.1.DirNode?)
    decreases dir, k
  {
    if k > 0 {
      VisitStep(skip, current, dir, k - 1);
      VisitSkipsIgnored(skip, current, dir, k - 1);
      EntrySkipsIgnored(skip, current, dir.entries[k - 1]);
      AllOfEither(Visit(skip, current, dir, k - 1), VisitEntry(skip, current, dir.entries[k - 1]), Visit(skip, current, dir, k),
        (v: (string, Node)) => !skip(v.0, v.1.DirNode?));
    }
  }

  /** The same for what one entry contributes. */
  lemma {:induction false} EntrySkipsIgnored(skip: (string, bool) -> bool, current: string, e: Entry)
    ensures forall v :: v in VisitEntry(skip, current, e) ==> !skip(v.0, v.1.DirNode?)
    decreases e.node, if e.node.DirNode? then |e.node.entries| + 1 else 0
  {
    if e.node.DirNode? {
      VisitSkipsIgnored(skip, ChildPath(current, e.name), e.node, |e.node.entries|);
    }
  }

  /** What holds of everything in both parts of a concatenation holds of everything in the whole. */
  lemma AllOfEither<T>(a: seq<T>, b: seq<T>, c: seq<T>, P: T -> bool)
    requires c == a + b
    requires forall x :: x in a ==> P(x)
    requires forall x :: x in b ==> P(x)
    ensures forall x :: x in c ==> P(x)
  {
  }

  /** Every entry of the folder itself that is not ignored is recorded. */
  lemma {:induction false} VisitTakesVisibleEntries(skip: (string, bool) -> bool, current: string, dir: Node, k: nat, i: nat)
    requires dir.DirNode? && i < k <= |dir.entries|
    requires !skip(ChildPath(current, dir.entries[i].name), dir.entries[i].node.DirNode?)
    ensures (ChildPath(current, dir.entries[i].name), dir.entries[i].node) in Visit(skip, current, dir, k)
    decreases k
  {
    if i < k - 1 {
      VisitTakesVisibleEntries(skip, current, dir, k - 1, i);
    }
  }

  /** The walk enters every folder it records: what lies in a recorded folder and is not
   *  ignored is recorded too. */
  lemma {:induction false} VisitEntersFolders(skip: (string, bool) -> bool, current: string, dir: Node, k: nat, v: (string, Node), i: nat)
    requires dir.DirNode? && k <= |dir.entries|
    requires v in Visit(skip, current, dir, k) && v.1.DirNode? && i < |v.1.entries|
    requires !skip(ChildPath(v.0, v.1.entries[i].name), v.1.entries[i].node.DirNode?)
    ensures (ChildPath(v.0, v.1.entries[i].name), v.1.entries[i].node) in Visit(skip, current, dir, k)
    decreases dir, k, 2
  {
    VisitNonEmpty(skip, current, dir, k, v);
    VisitStep(skip, current, dir, k - 1);
    if v in Visit(skip, current, dir, k - 1) {
      EntersFromFront(skip, current, dir, k, v, i);
    } else {
      EntersFromLast(skip, current, dir, k, v, i);
    }
  }

  /** `VisitEntersFolders` for a folder recorded among the first `k - 1` entries. */
  lemma {:induction false} EntersFromFront(skip: (string, bool) -> bool, current: string, dir: Node, k: nat, v: (string, Node), i: nat)
    requires dir.DirNode? && 0 < k <= |dir.entries|
    requires v in Visit(skip, current, dir, k - 1) && v.1.DirNode? && i < |v.1.entries|
    requires !skip(ChildPath(v.0, v.1.entries[i].name), v.1.entries[i].node.DirNode?)
    ensures (ChildPath(v.0, v.1.entries[i].name), v.1.entries[i].node) in Visit(skip, current, dir, k)
    decreases dir, k, 1
  {
    VisitEntersFolders(skip, current, dir, k - 1, v, i);
    VisitGrows(skip, current, dir, k, (ChildPath(v.0, v.1.entries[i].name), v.1.entries[i].node));
  }

  /** `VisitEntersFolders` for a folder recorded from entry `k - 1`. */
  lemma {:induction false} EntersFromLast(skip: (string, bool) -> bool, current: string, dir: Node, k: nat, v: (string, Node), i: nat)
    requires dir.DirNode? && 0 < k <= |dir.entries|
    requires v in VisitEntry(skip, current, dir.entries[k - 1]) && v.1.DirNode? && i < |v.1.entries|
    requires !skip(ChildPath(v.0, v.1.entries[i].name), v.1.entries[i].node.DirNode?)
    ensures (ChildPath(v.0, v.1.entries[i].name), v.1.entries[i].node) in Visit(skip, current, dir, k)
    decreases dir, k, 1
  {
    VisitEntryEnters(skip, current, dir.entries[k - 1], v, i);
    VisitGrows(skip, current, dir, k, (ChildPath(v.0, v.1.entries[i].name), v.1.entries[i].node));
  }

  /** What the walk records from the first `k - 1` entries, or from entry `k - 1`, it
   *  records from the first `k`. */
  lemma VisitGrows(skip: (string, bool) -> bool, current: string, dir: Node, k: nat, x: (string, Node))
    requires dir.DirNode? && 0 < k <= |dir.entries|
    requires x in Visit(skip, current, dir, k - 1) || x in VisitEntry(skip, current, dir.entries[k - 1])
    ensures x in Visit(skip, current, dir, k)
  {
    VisitStep(skip, current, dir, k - 1);
    InEither(x, Visit(skip, current, dir, k - 1), VisitEntry(skip, current, dir.entries[k - 1]), Visit(skip, current, dir, k));
  }

  /** What is in one part of a concatenation is in the whole. */
  lemma InEither<T>(x: T, a: seq<T>, b: seq<T>, c: seq<T>)
    requires c == a + b && (x in a || x in b)
    ensures x in c
  {
  }

  /** Nothing is recorded from no entries. */
  lemma VisitNonEmpty(skip: (string, bool) -> bool, current: string, dir: Node, k: nat, v: (string, Node))
    requires dir.DirNode? && k <= |dir.entries| && v in Visit(skip, current, dir, k)
    ensures k > 0
  {
  }

  /** The same for what one entry contributes: the entry itself, or something inside it. */
  lemma {:induction false} VisitEntryEnters(skip: (string, bool) -> bool, current: string, e: Entry, v: (string, Node), i: nat)
    requires v in VisitEntry(skip, current, e) && v.1.DirNode? && i < |v.1.entries|
    requires !skip(ChildPath(v.0, v.1.entries[i].name), v.1.entries[i].node.DirNode?)
    ensures (ChildPath(v.0, v.1.entries[i].name), v.1.entries[i].node) in VisitEntry(skip, current, e)
    decreases e.node, if e.node.DirNode? then |e.node.entries| + 1 else 0, 0
  {
    var rel := ChildPath(current, e.name);
    if v == (rel, e.node) {
      VisitTakesVisibleEntries(skip, rel, e.node, |e.node.entries|, i);
    } else {
      VisitEntersFolders(skip, rel, e.node, |e.node.entries|, v, i);
    }
  }

  /** One step of the walk: `sync_items[rel]` is created if missing, then its local state
   *  is recomputed from the disk. */
  function LocalUpsert(t: Table, localRoot: string, cloudRoot: string, v: (string, Node)): (r: Table)
    ensures r.items.Keys == t.items.Keys + {v.0}
    ensures v.0 !in t.items ==> r.order == t.order + [v.0]
    ensures v.0 in t.items ==> r.order == t.order
    ensures TableOk(t) ==> TableOk(r)
    ensures Agrees(r.items[v.0].local, v.1)
    ensures r.items[v.0].local.path == (if v.0 in t.items then t.items[v.0] else NewPair(localRoot, cloudRoot, v.0)).local.path
    ensures r.items[v.0].cloud == (if v.0 in t.items then t.items[v.0] else NewPair(localRoot, cloudRoot, v.0)).cloud
    ensures forall p :: p in t.items && p != v.0 ==> r.items[p] == t.items[p]
  {
    var t1 := Touch(t, v.0, NewPair(localRoot, cloudRoot, v.0));
    var item := t1.items[v.0];
    Put(t1, v.0, item.(local := LocalStateOf(item.local, FoundOf(v.1))))
  }

  /** The dictionary after the walk processed the given entries in order. */
  function LocalUpserts(t: Table, localRoot: string, cloudRoot: string, vs: seq<(string, Node)>): Table
  {
    if vs == [] then t
    else LocalUpsert(LocalUpserts(t, localRoot, cloudRoot, vs[..|vs| - 1]), localRoot, cloudRoot, vs[|vs| - 1])
  }

  lemma {:induction false} LocalUpsertsAppend(t: Table, localRoot: string, cloudRoot: string, a: seq<(string, Node)>, b: seq<(string, Node)>)
    ensures LocalUpserts(t, localRoot, cloudRoot, a + b) == LocalUpserts(LocalUpserts(t, localRoot, cloudRoot, a), localRoot, cloudRoot, b)
    decreases |b|
  {
    if b == [] {
      assert a + b == a;
    } else {
      var n := |b| - 1;
      assert (a + b)[..|a + b| - 1] == a + b[..n];
      assert (a + b)[|a + b| - 1] == b[n];
      LocalUpsertsAppend(t, localRoot, cloudRoot, a, b[..n]);
    }
  }

  /** The walk of a folder after one more entry is the walk so far followed by that entry's
   *  own contribution. */
  lemma LocalUpsertsStep(t0: Table, localRoot: string, cloudRoot: string, skip: (string, bool) -> bool, current: string, dir: Node, i: nat, before: Table, after: Table)
    requires dir.DirNode? && i < |dir.entries|
    requires before == LocalUpserts(t0, localRoot, cloudRoot, Visit(skip, current, dir, i))
    requires after == LocalUpserts(before, localRoot, cloudRoot, VisitEntry(skip, current, dir.entries[i]))
    ensures after == LocalUpserts(t0, localRoot, cloudRoot, Visit(skip, current, dir, i + 1))
  {
    VisitStep(skip, current, dir, i);
    LocalUpsertsAppend(t0, localRoot, cloudRoot, Visit(skip, current, dir, i), VisitEntry(skip, current, dir.entries[i]));
  }

  /** The walk adds exactly the recorded paths to the keys. */
  lemma {:induction false} LocalUpsertsKeys(t: Table, localRoot: string, cloudRoot: string, vs: seq<(string, Node)>)
    ensures forall p :: p in LocalUpserts(t, localRoot, cloudRoot, vs).items <==> p in t.items || exists v :: v in vs && v.0 == p
    decreases |vs|
  {
    if vs != [] {
      var n := |vs| - 1;
      var front := vs[..n];
      LocalUpsertsKeys(t, localRoot, cloudRoot, front);
      var r0 := LocalUpserts(t, localRoot, cloudRoot, front);
      var r := LocalUpserts(t, localRoot, cloudRoot, vs);
      assert r == LocalUpsert(r0, localRoot, cloudRoot, vs[n]);
      assert vs == front + [vs[n]];
      forall p ensures p in r.items <==> p in t.items || exists v :: v in vs && v.0 == p {
        NamedAfter(front, vs[n], p);
      }
    }
  }

  /** A path is the name of an entry of `front + [last]` when it names one of `front` or
   *  `last`. */
  lemma NamedAfter(front: seq<(string, Node)>, last: (string, Node), p: string)
    ensures (exists v :: v in front + [last] && v.0 == p) <==> (exists v :: v in front && v.0 == p) || last.0 == p
  {
    if exists v :: v in front + [last] && v.0 == p {
      var v :| v in front + [last] && v.0 == p;
      if v != last {
        assert v in front;
      }
    }
    if exists v :: v in front && v.0 == p {
      var v :| v in front && v.0 == p;
      assert v in front + [last];
    }
    if last.0 == p {
      assert last in front + [last];
    }
  }

  /** The walk keeps the dictionary well formed and only appends to its order. */
  lemma {:induction false} LocalUpsertsOrder(t: Table, localRoot: string, cloudRoot: string, vs: seq<(string, Node)>)
    ensures var r := LocalUpserts(t, localRoot, cloudRoot, vs);
      && (TableOk(t) ==> TableOk(r))
      && |t.order| <= |r.order| && r.order[..|t.order|] == t.order
    decreases |vs|
  {
    if vs != [] {
      var n := |vs| - 1;
      LocalUpsertsOrder(t, localRoot, cloudRoot, vs[..n]);
      var r0 := LocalUpserts(t, localRoot, cloudRoot, vs[..n]);
      var r := LocalUpserts(t, localRoot, cloudRoot, vs);
      assert r == LocalUpsert(r0, localRoot, cloudRoot, vs[n]);
      assert r.order[..|r0.order|] == r0.order;
      assert r.order[..|t.order|] == r0.order[..|t.order|];
    }
  }

  /** The walk writes local states only: the cloud state of a path already present is kept,
   *  that of a new path is fresh, and a path the walk did not record is untouched. */
  lemma {:induction false} LocalUpsertsKeepCloud(t: Table, localRoot: string, cloudRoot: string, vs: seq<(string, Node)>)
    ensures var r := LocalUpserts(t, localRoot, cloudRoot, vs);
      && (forall p :: p in t.items ==> p in r.items && r.items[p].cloud == t.items[p].cloud)
      && (forall p :: p in r.items && p !in t.items ==> r.items[p].cloud == NewPair(localRoot, cloudRoot, p).cloud)
      && (forall p :: p in t.items && (forall v :: v in vs ==> v.0 != p) ==> r.items[p] == t.items[p])
    decreases |vs|
  {
    if vs != [] {
      var n := |vs| - 1;
      var front := vs[..n];
      LocalUpsertsKeepCloud(t, localRoot, cloudRoot, front);
      var r0 := LocalUpserts(t, localRoot, cloudRoot, front);
      var r := LocalUpserts(t, localRoot, cloudRoot, vs);
      assert r == LocalUpsert(r0, localRoot, cloudRoot, vs[n]);
      forall p | p in t.items && (forall v :: v in vs ==> v.0 != p) ensures r.items[p] == t.items[p] {
        forall v | v in front ensures v.0 != p {
          assert v in vs;
        }
        assert vs[n] in vs;
      }
    }
  }

  /** Each recorded path's local state agrees with the disk entry it was last recorded from. */
  lemma {:induction false} LocalUpsertsAgree(t: Table, localRoot: string, cloudRoot: string, vs: seq<(string, Node)>, i: nat)
    requires i < |vs|
    requires forall j :: i < j < |vs| ==> vs[j].0 != vs[i].0
    ensures vs[i].0 in LocalUpserts(t, localRoot, cloudRoot, vs).items
    ensures Agrees(LocalUpserts(t, localRoot, cloudRoot, vs).items[vs[i].0].local, vs[i].1)
    decreases |vs|
  {
    var n := |vs| - 1;
    var front := vs[..n];
    var r0 := LocalUpserts(t, localRoot, cloudRoot, front);
    assert LocalUpserts(t, localRoot, cloudRoot, vs) == LocalUpsert(r0, localRoot, cloudRoot, vs[n]);
    if i < n {
      assert front[i] == vs[i];
      forall j | i < j < |front| ensures front[j].0 != front[i].0 {
        assert front[j] == vs[j];
      }
      LocalUpsertsAgree(t, localRoot, cloudRoot, front, i);
    }
  }

  // ------------------------------------------------------------- the cloud side

  /** One element of a folder listing as the API returns it: the entry's name and the
   *  metadata `from_dict` reads. */
  datatype CloudEntry = CloudEntry(name: string, record: Record)

  /** `item['type'] == 'dir'`. */
  predicate IsFolder(e: CloudEntry)
  {
    e.record.kind == Some(Dir)
  }

  /** One entry of a folder listing that is not ignored: `sync_items[rel]` is created if
   *  missing, then its cloud state takes the entry's metadata. */
  function CloudUpsert(t: Table, localRoot: string, cloudRoot: string, rel: string, e: CloudEntry): (r: Table)
    ensures r.items.Keys == t.items.Keys + {rel}
    ensures rel !in t.items ==> r.order == t.order + [rel]
    ensures rel in t.items ==> r.order == t.order
    ensures TableOk(t) ==> TableOk(r)
    ensures r.items[rel].cloud == WithDict((if rel in t.items then t.items[rel] else NewPair(localRoot, cloudRoot, rel)).cloud, Some(e.record))
    ensures r.items[rel].local == (if rel in t.items then t.items[rel] else NewPair(localRoot, cloudRoot, rel)).local
    ensures forall p :: p in t.items && p != rel ==> r.items[p] == t.items[p]
  {
    var t1 := Touch(t, rel, NewPair(localRoot, cloudRoot, rel));
    var item := t1.items[rel];
    Put(t1, rel, item.(cloud := WithDict(item.cloud, Some(e.record))))
  }

  /** A cloud entry's metadata names its type, so the cloud state it leaves has that type. */
  lemma CloudUpsertKind(t: Table, localRoot: string, cloudRoot: string, rel: string, e: CloudEntry)
    requires e.record.kind.Some?
    ensures CloudUpsert(t, localRoot, cloudRoot, rel, e).items[rel].cloud.kind == e.record.kind.value
  {
  }

  /** The child path of a listed entry (`os.path.join(folder, name) if folder else name`). */
  function ChildOf(folder: string, e: CloudEntry): string
  {
    ChildPath(folder, e.name)
  }

  /** What `process_folder_items(folder, entries)` leaves in the dictionary once it has
   *  gone through the first `k` entries: every entry the verdict does not skip is filed. */
  function FileListing(t: Table, localRoot: string, cloudRoot: string, skip: (string, bool) -> bool, folder: string, entries: seq<CloudEntry>, k: nat): Table
    requires k <= |entries|
  {
    if k == 0 then t
    else
      var t0 := FileListing(t, localRoot, cloudRoot, skip, folder, entries, k - 1);
      var e := entries[k - 1];
      if skip(ChildOf(folder, e), IsFolder(e)) then t0
      else CloudUpsert(t0, localRoot, cloudRoot, ChildOf(folder, e), e)
  }

  /** The paths a listing files: its entries that the verdict does not skip. */
  predicate Listed(skip: (string, bool) -> bool, folder: string, entries: seq<CloudEntry>, p: string)
  {
    exists e :: e in entries && p == ChildOf(folder, e) && !skip(p, IsFolder(e))
  }

  /** Filing a listing adds exactly its unskipped entries to the keys. */
  lemma {:induction false} FileListingKeys(t: Table, localRoot: string, cloudRoot: string, skip: (string, bool) -> bool, folder: string, entries: seq<CloudEntry>, k: nat)
    requires k <= |entries|
    ensures forall p :: p in FileListing(t, localRoot, cloudRoot, skip, folder, entries, k).items <==> p in t.items || Listed(skip, folder, entries[..k], p)
    decreases k
  {
    if k > 0 {
      FileListingKeys(t, localRoot, cloudRoot, skip, folder, entries, k - 1);
      var e := entries[k - 1];
      assert entries[..k] == entries[..k - 1] + [e];
      forall p {
        ListedAfter(skip, folder, entries[..k - 1], e, p);
      }
    }
  }

  /** A path is listed by `front + [last]` when it is listed by `front` or is `last`'s
   *  unskipped path. */
  lemma ListedAfter(skip: (string, bool) -> bool, folder: string, front: seq<CloudEntry>, last: CloudEntry, p: string)
    ensures Listed(skip, folder, front + [last], p) <==>
      Listed(skip, folder, front, p) || (p == ChildOf(folder, last) && !skip(p, IsFolder(last)))
  {
    if Listed(skip, folder, front + [last], p) {
      var x :| x in front + [last] && p == ChildOf(folder, x) && !skip(p, IsFolder(x));
      if x != last {
        assert x in front;
      }
    }
    if Listed(skip, folder, front, p) {
      var x :| x in front && p == ChildOf(folder, x) && !skip(p, IsFolder(x));
      assert x in front + [last];
    }
    if p == ChildOf(folder, last) && !skip(p, IsFolder(last)) {
      assert last in front + [last];
    }
  }

  /** Filing a listing appends new paths to the order and keeps the dictionary well formed. */
  lemma {:induction false} FileListingOrder(t: Table, localRoot: string, cloudRoot: string, skip: (string, bool) -> bool, folder: string, entries: seq<CloudEntry>, k: nat)
    requires k <= |entries|
    ensures var r := FileListing(t, localRoot, cloudRoot, skip, folder, entries, k);
      && (TableOk(t) ==> TableOk(r))
      && |t.order| <= |r.order| && r.order[..|t.order|] == t.order
    decreases k
  {
    if k > 0 {
      FileListingOrder(t, localRoot, cloudRoot, skip, folder, entries, k - 1);
      var e := entries[k - 1];
      if !skip(ChildOf(folder, e), IsFolder(e)) {
        UpsertExtendsOrder(t, FileListing(t, localRoot, cloudRoot, skip, folder, entries, k - 1), localRoot, cloudRoot, ChildOf(folder, e), e);
      }
    }
  }

  /** Filing one more entry into `r` keeps `r` well formed and its order an extension of
   *  `t`'s. */
  lemma UpsertExtendsOrder(t: Table, r: Table, localRoot: string, cloudRoot: string, rel: string, e: CloudEntry)
    requires TableOk(t) ==> TableOk(r)
    requires |t.order| <= |r.order| && r.order[..|t.order|] == t.order
    ensures var r' := CloudUpsert(r, localRoot, cloudRoot, rel, e);
      && (TableOk(t) ==> TableOk(r'))
      && |t.order| <= |r'.order| && r'.order[..|t.order|] == t.order
  {
    var r' := CloudUpsert(r, localRoot, cloudRoot, rel, e);
    assert r'.order[..|r.order|] == r.order;
    assert r'.order[..|t.order|] == r.order[..|t.order|];
  }

  /** Filing a listing writes cloud states only: local states stay as they were, or fresh. */
  lemma {:induction false} FileListingKeepsLocal(t: Table, localRoot: string, cloudRoot: string, skip: (string, bool) -> bool, folder: string, entries: seq<CloudEntry>, k: nat)
    requires k <= |entries|
    ensures var r := FileListing(t, localRoot, cloudRoot, skip, folder, entries, k);
      && (forall p :: p in t.items ==> p in r.items && r.items[p].local == t.items[p].local)
      && (forall p :: p in r.items && p !in t.items ==> r.items[p].local == NewPair(localRoot, cloudRoot, p).local)
    decreases k
  {
    if k > 0 {
      FileListingKeepsLocal(t, localRoot, cloudRoot, skip, folder, entries, k - 1);
      var e := entries[k - 1];
      if !skip(ChildOf(folder, e), IsFolder(e)) {
        UpsertKeepsLocal(t, FileListing(t, localRoot, cloudRoot, skip, folder, entries, k - 1), localRoot, cloudRoot, ChildOf(folder, e), e);
      }
    }
  }

  /** Filing one more entry into `r` keeps what `r` kept of `t`'s local states. */
  lemma UpsertKeepsLocal(t: Table, r: Table, localRoot: string, cloudRoot: string, rel: string, e: CloudEntry)
    requires forall p :: p in t.items ==> p in r.items && r.items[p].local == t.items[p].local
    requires forall p :: p in r.items && p !in t.items ==> r.items[p].local == NewPair(localRoot, cloudRoot, p).local
    ensures var r' := CloudUpsert(r, localRoot, cloudRoot, rel, e);
      && (forall p :: p in t.items ==> p in r'.items && r'.items[p].local == t.items[p].local)
      && (forall p :: p in r'.items && p !in t.items ==> r'.items[p].local == NewPair(localRoot, cloudRoot, p).local)
  {
  }

  /** The folders `process_folder_items` collects from a listing: the unskipped entries
   *  whose type is 'dir', in listing order. */
  function Subfolders(skip: (string, bool) -> bool, folder: string, entries: seq<CloudEntry>, k: nat): (r: seq<string>)
    requires k <= |entries|
    ensures forall p :: p in r <==> exists e :: e in entries[..k] && IsFolder(e) && p == ChildOf(folder, e) && !skip(p, true)
  {
    if k == 0 then []
    else
      var front := Subfolders(skip, folder, entries, k - 1);
      var e := entries[k - 1];
      assert entries[..k] == entries[..k - 1] + [e];
      front + (if IsFolder(e) && !skip(ChildOf(folder, e), true) then [ChildOf(folder, e)] else [])
  }

  /** Filing entries none of which is at `p` leaves `p` as it was, or absent. */
  lemma {:induction false} FileListingElsewhere(t: Table, localRoot: string, cloudRoot: string, skip: (string, bool) -> bool, folder: string, entries: seq<CloudEntry>, k: nat, p: string)
    requires k <= |entries|
    requires forall j :: 0 <= j < k ==> ChildOf(folder, entries[j]) != p
    ensures var r := FileListing(t, localRoot, cloudRoot, skip, folder, entries, k);
      (p in r.items <==> p in t.items) && (p in t.items ==> r.items[p] == t.items[p])
    decreases k
  {
    if k > 0 {
      FileListingElsewhere(t, localRoot, cloudRoot, skip, folder, entries, k - 1, p);
    }
  }

  /** In a listing that names each child once, every entry that is not skipped leaves its
   *  path with the cloud state it had before the listing (or a fresh one) updated by the
   *  entry's metadata. */
  lemma {:induction false} FileListingRecords(t: Table, localRoot: string, cloudRoot: string, skip: (string, bool) -> bool, folder: string, entries: seq<CloudEntry>, k: nat, i: nat)
    requires i < k <= |entries|
    requires !skip(ChildOf(folder, entries[i]), IsFolder(entries[i]))
    requires forall j :: 0 <= j < k && j != i ==> ChildOf(folder, entries[j]) != ChildOf(folder, entries[i])
    ensures var p := ChildOf(folder, entries[i]);
      var r := FileListing(t, localRoot, cloudRoot, skip, folder, entries, k);
      p in r.items && r.items[p].cloud == WithDict((if p in t.items then t.items[p] else NewPair(localRoot, cloudRoot, p)).cloud, Some(entries[i].record))
    decreases k
  {
    if k - 1 == i {
      FileListingRecordAt(t, localRoot, cloudRoot, skip, folder, entries, i);
    } else {
      FileListingRecords(t, localRoot, cloudRoot, skip, folder, entries, k - 1, i);
      FileListingStepElsewhere(t, localRoot, cloudRoot, skip, folder, entries, k, ChildOf(folder, entries[i]));
    }
  }

  /** Filing entry `k - 1` at another path than `p` keeps what the dictionary holds at `p`. */
  lemma FileListingStepElsewhere(t: Table, localRoot: string, cloudRoot: string, skip: (string, bool) -> bool, folder: string, entries: seq<CloudEntry>, k: nat, p: string)
    requires 0 < k <= |entries| && ChildOf(folder, entries[k - 1]) != p
    ensures var r0 := FileListing(t, localRoot, cloudRoot, skip, folder, entries, k - 1);
      var r := FileListing(t, localRoot, cloudRoot, skip, folder, entries, k);
      (p in r.items <==> p in r0.items) && (p in r0.items ==> r.items[p] == r0.items[p])
  {
    var e := entries[k - 1];
    var r0 := FileListing(t, localRoot, cloudRoot, skip, folder, entries, k - 1);
    if !skip(ChildOf(folder, e), IsFolder(e)) {
      assert FileListing(t, localRoot, cloudRoot, skip, folder, entries, k) == CloudUpsert(r0, localRoot, cloudRoot, ChildOf(folder, e), e);
    }
  }

  /** `FileListingRecords` right after the entry itself was filed. */
  lemma FileListingRecordAt(t: Table, localRoot: string, cloudRoot: string, skip: (string, bool) -> bool, folder: string, entries: seq<CloudEntry>, i: nat)
    requires i < |entries|
    requires !skip(ChildOf(folder, entries[i]), IsFolder(entries[i]))
    requires forall j :: 0 <= j < i ==> ChildOf(folder, entries[j]) != ChildOf(folder, entries[i])
    ensures var p := ChildOf(folder, entries[i]);
      var r := FileListing(t, localRoot, cloudRoot, skip, folder, entries, i + 1);
      p in r.items && r.items[p].cloud == WithDict((if p in t.items then t.items[p] else NewPair(localRoot, cloudRoot, p)).cloud, Some(entries[i].record))
  {
    var p := ChildOf(folder, entries[i]);
    var r0 := FileListing(t, localRoot, cloudRoot, skip, folder, entries, i);
    FileListingElsewhere(t, localRoot, cloudRoot, skip, folder, entries, i, p);
    assert FileListing(t, localRoot, cloudRoot, skip, folder, entries, i + 1) == CloudUpsert(r0, localRoot, cloudRoot, p, entries[i]);
  }

  /** Hence such an entry leaves its path with the type the listing gave it. */
  lemma FileListingKinds(t: Table, localRoot: string, cloudRoot: string, skip: (string, bool) -> bool, folder: string, entries: seq<CloudEntry>, i: nat)
    requires i < |entries| && entries[i].record.kind.Some?
    requires !skip(ChildOf(folder, entries[i]), IsFolder(entries[i]))
    requires forall j :: 0 <= j < |entries| && j != i ==> ChildOf(folder, entries[j]) != ChildOf(folder, entries[i])
    ensures var p := ChildOf(folder, entries[i]);
      var r := FileListing(t, localRoot, cloudRoot, skip, folder, entries, |entries|);
      p in r.items && r.items[p].cloud.kind == entries[i].record.kind.value
  {
    var p := ChildOf(folder, entries[i]);
    FileListingRecords(t, localRoot, cloudRoot, skip, folder, entries, |entries|, i);
    WithDictKeys((if p in t.items then t.items[p] else NewPair(localRoot, cloudRoot, p)).cloud, entries[i].record);
  }
}
