/**
 * Reconciliation in `SyncProject`: the `sync_items` dictionary (paths in insertion
 * order), the classification of every path into a cell of the 3x3 matrix
 * `items_need_for_update[local_type][cloud_type]`, the tables that say which cells
 * each phase of `sync_save` and `sync_load` works on, and what each phase handler
 * does to an item.
 */
module Reconcile {
  import opened Wrappers
  import opened Strings
  import opened Order
  import opened Items

  // ------------------------------------------------------------- the dictionary

  /** `sync_items`: a pair of states per relative path, and the order in which the
   *  paths were first inserted (the order `dict.items()` yields them in). */
  datatype Table = Table(items: map<string, Pair>, order: seq<string>)

  ghost predicate Distinct(s: seq<string>)
  {
    forall i, j :: 0 <= i < j < |s| ==> s[i] != s[j]
  }

  /** Every key is listed once in the order, and only keys are listed. */
  ghost predicate TableOk(t: Table)
  {
    (forall p :: p in t.items <==> p in t.order) && Distinct(t.order)
  }

  const EmptyTable: Table := Table(map[], [])

  /** `create_item(relative_path)`: the project root itself for "", otherwise the path
   *  joined onto the local and onto the cloud root. */
  function NewPair(localRoot: string, cloudRoot: string, rel: string): (r: Pair)
    ensures r.local == Fresh.(path := if rel == "" then localRoot else PathJoin(localRoot, rel))
    ensures r.cloud == Fresh.(path := if rel == "" then cloudRoot else PathJoin(cloudRoot, rel))
  {
    if rel == "" then Pair(Fresh.(path := localRoot), Fresh.(path := cloudRoot))
    else Pair(Fresh.(path := PathJoin(localRoot, rel)), Fresh.(path := PathJoin(cloudRoot, rel)))
  }

  /** `if p not in sync_items: sync_items[p] = create_item(p)`: a missing path is added at
   *  the end of the order with a fresh pair; a present one is left alone. */
  function Touch(t: Table, p: string, v: Pair): (r: Table)
    ensures p in r.items
    ensures p in t.items ==> r == t
    ensures p !in t.items ==> r.items == t.items[p := v] && r.order == t.order + [p]
    ensures TableOk(t) ==> TableOk(r)
  {
    if p in t.items then t
    else
      var r := Table(t.items[p := v], t.order + [p]);
      assert TableOk(t) ==> TableOk(r) by {
        if TableOk(t) {
          forall q ensures q in r.items <==> q in r.order {
            assert q in r.order <==> q in t.order || q == p;
          }
          forall i, j | 0 <= i < j < |r.order| ensures r.order[i] != r.order[j] {
            if j == |t.order| {
              assert r.order[i] == t.order[i];
              assert t.order[i] in t.items;
            } else {
              assert r.order[i] == t.order[i] && r.order[j] == t.order[j];
            }
          }
        }
      }
      r
  }

  /** Replace the pair of a path already present; the order is not touched. */
  function Put(t: Table, p: string, v: Pair): (r: Table)
    requires p in t.items
    ensures r.items == t.items[p := v] && r.order == t.order
    ensures TableOk(t) ==> TableOk(r)
  {
    Table(t.items[p := v], t.order)
  }

  // ------------------------------------------------------------- the matrix

  /** A cell of the matrix: the local type, then the cloud type. */
  datatype Cell = Cell(local: Kind, cloud: Kind)

  const AllCells: set<Cell> := {
    Cell(Empty, Empty), Cell(Empty, File), Cell(Empty, Dir),
    Cell(File, Empty), Cell(File, File), Cell(File, Dir),
    Cell(Dir, Empty), Cell(Dir, File), Cell(Dir, Dir)
  }

  /** The nine cells are all the cells there are. */
  lemma AllCellsComplete(c: Cell)
    ensures c in AllCells
  {
    var row := {Cell(c.local, Empty), Cell(c.local, File), Cell(c.local, Dir)};
    assert row <= AllCells by {
      match c.local {
        case Empty =>
        case File =>
        case Dir =>
      }
    }
    match c.cloud {
      case Empty => assert Cell(c.local, Empty) in row;
      case File => assert Cell(c.local, File) in row;
      case Dir => assert Cell(c.local, Dir) in row;
    }
  }

  /** The matrix as `__init__` builds it: nine empty lists. */
  const EmptyMatrix: map<Cell, seq<string>> := map c | c in AllCells :: []

  /** An item needs work when the two types differ or the two digests differ. */
  predicate NeedsUpdate(p: Pair)
  {
    p.local.kind != p.cloud.kind || p.local.md5 != p.cloud.md5
  }

  /** The cell an item is filed under. */
  function CellOf(p: Pair): (c: Cell)
    ensures c.local == p.local.kind && c.cloud == p.cloud.kind
  {
    Cell(p.local.kind, p.cloud.kind)
  }

  /** The paths, taken in the given order, that the classification loop of `cloud_scan`
   *  appends to `cell`. */
  function Filed(items: map<string, Pair>, paths: seq<string>, cell: Cell): (r: seq<string>)
    requires forall p :: p in paths ==> p in items
    ensures forall p :: p in r <==> p in paths && NeedsUpdate(items[p]) && CellOf(items[p]) == cell
    ensures |r| <= |paths|
    ensures Distinct(paths) ==> Distinct(r)
  {
    if paths == [] then []
    else
      var n := |paths| - 1;
      assert paths == paths[..n] + [paths[n]];
      var front := Filed(items, paths[..n], cell);
      var last := if NeedsUpdate(items[paths[n]]) && CellOf(items[paths[n]]) == cell then [paths[n]] else [];
      assert Distinct(paths) ==> Distinct(front + last) by {
        if Distinct(paths) {
          assert Distinct(paths[..n]);
          assert paths[n] !in paths[..n];
          var r := front + last;
          forall i, j | 0 <= i < j < |r| ensures r[i] != r[j] {
            if j == |front| {
              assert r[i] == front[i] && r[i] in paths[..n];
            } else {
              assert r[i] == front[i] && r[j] == front[j];
            }
          }
        }
      }
      front + last
  }

  /** Classification files every item that needs work under exactly its own cell, and
   *  leaves the others out of the matrix. */
  lemma ClassificationPartitions(t: Table, p: string)
    requires TableOk(t) && p in t.items
    ensures NeedsUpdate(t.items[p]) ==> p in Filed(t.items, t.order, CellOf(t.items[p]))
    ensures forall c :: p in Filed(t.items, t.order, c) ==> c == CellOf(t.items[p]) && NeedsUpdate(t.items[p])
  {
  }

  /** Where both sides hold the same type, only a digest mismatch files an item. */
  lemma SameTypeFiledOnDigest(t: Table, p: string, k: Kind)
    requires TableOk(t) && p in t.items
    requires t.items[p].local.kind == k && t.items[p].cloud.kind == k
    ensures p in Filed(t.items, t.order, Cell(k, k)) <==> t.items[p].local.md5 != t.items[p].cloud.md5
  {
  }

  /** Whether a path is filed depends on its own pair alone. */
  lemma FiledPerPath(a: Table, b: Table, p: string, c: Cell)
    requires TableOk(a) && TableOk(b)
    requires p in a.items && p in b.items && a.items[p] == b.items[p]
    ensures p in Filed(a.items, a.order, c) <==> p in Filed(b.items, b.order, c)
  {
  }

  /** The items of the given cells, one cell after the other (`*m[a][b], *m[c][d], ...`). */
  function Gather(m: map<Cell, seq<string>>, cells: seq<Cell>): (r: seq<string>)
    requires forall c :: c in cells ==> c in m
    ensures forall p :: p in r <==> exists c :: c in cells && p in m[c]
  {
    if cells == [] then []
    else
      var r := m[cells[0]] + Gather(m, cells[1..]);
      assert forall p :: p in r <==> exists c :: c in cells && p in m[c] by {
        forall p ensures p in r <==> exists c :: c in cells && p in m[c] {
          if p in m[cells[0]] {
            assert cells[0] in cells;
          } else if exists c :: c in cells && p in m[c] {
            var c :| c in cells && p in m[c];
            assert c in cells[1..];
          }
        }
      }
      r
  }

  /** The matrix `m` after the classification loop went through `paths`: every path that
   *  needs work is appended to the list of its own cell. */
  function Classified(m: map<Cell, seq<string>>, items: map<string, Pair>, paths: seq<string>): (r: map<Cell, seq<string>>)
    requires AllCells <= m.Keys
    requires forall p :: p in paths ==> p in items
    ensures r.Keys == m.Keys
  {
    if paths == [] then m
    else
      var n := |paths| - 1;
      var p := paths[n];
      assert p in paths;
      var front := Classified(m, items, paths[..n]);
      if NeedsUpdate(items[p]) then
        AllCellsComplete(CellOf(items[p]));
        front[CellOf(items[p]) := front[CellOf(items[p])] + [p]]
      else front
  }

  lemma AppendAssoc(a: seq<string>, b: seq<string>, c: seq<string>)
    ensures a + (b + c) == (a + b) + c
  {
  }

  /** Classifying appends to each cell exactly what `Filed` selects for it, and files no
   *  path that is not an item. */
  lemma {:induction false} ClassifiedIsFiled(m: map<Cell, seq<string>>, items: map<string, Pair>, paths: seq<string>)
    requires AllCells <= m.Keys
    requires forall p :: p in paths ==> p in items
    ensures forall c :: c in AllCells ==> Classified(m, items, paths)[c] == m[c] + Filed(items, paths, c)
    ensures forall c :: c in m && c !in AllCells ==> Classified(m, items, paths)[c] == m[c]
    decreases |paths|
  {
    if paths != [] {
      var n := |paths| - 1;
      assert forall p :: p in paths[..n] ==> p in paths;
      ClassifiedIsFiled(m, items, paths[..n]);
      var p := paths[n];
      assert p in paths;
      var front := Classified(m, items, paths[..n]);
      var r := Classified(m, items, paths);
      forall c | c in AllCells ensures r[c] == m[c] + Filed(items, paths, c) {
        var last := if NeedsUpdate(items[p]) && CellOf(items[p]) == c then [p] else [];
        assert r[c] == front[c] + last;
        assert Filed(items, paths, c) == Filed(items, paths[..n], c) + last;
        AppendAssoc(m[c], Filed(items, paths[..n], c), last);
      }
      AllCellsComplete(CellOf(items[p]));
    }
  }

  /** Cells of distinct lists with no path in two of them gather into a list without repeats. */
  lemma {:induction false} GatherDistinct(m: map<Cell, seq<string>>, cells: seq<Cell>)
    requires forall c :: c in cells ==> c in m && Distinct(m[c])
    requires forall i, j :: 0 <= i < j < |cells| ==> cells[i] != cells[j]
    requires forall c, d, p :: c in cells && d in cells && p in m[c] && p in m[d] ==> c == d
    ensures Distinct(Gather(m, cells))
    decreases |cells|
  {
    if cells != [] {
      var rest := cells[1..];
      forall i, j | 0 <= i < j < |rest| ensures rest[i] != rest[j] {
        assert rest[i] == cells[i + 1] && rest[j] == cells[j + 1];
      }
      GatherDistinct(m, rest);
      var a := m[cells[0]];
      var b := Gather(m, rest);
      forall p | p in b ensures p !in a {
        var c :| c in rest && p in m[c];
        var k :| 0 <= k < |rest| && rest[k] == c;
        assert cells[k + 1] == c;
        assert c != cells[0];
      }
      var r := a + b;
      forall i, j | 0 <= i < j < |r| ensures r[i] != r[j] {
        if j < |a| {
        } else if i >= |a| {
          assert r[i] == b[i - |a|] && r[j] == b[j - |a|];
        } else {
          assert r[i] in a && r[j] in b;
        }
      }
    }
  }

  // ------------------------------------------------------------- the phases

  /** The handlers `sync_save` and `sync_load` hand to `multythread_operation`. */
  datatype Handler = RemoveCloudH | CreateCloudDirH | UploadH | RemoveLocalH | CreateLocalDirH | DownloadH

  /** One phase: a handler and the cells whose items it receives. */
  datatype Phase = Phase(handler: Handler, cells: seq<Cell>)

  /** `sync_save`: remove from the cloud, create cloud folders, upload. */
  const SavePlan: seq<Phase> := [
    Phase(RemoveCloudH, [Cell(Empty, File), Cell(Empty, Dir), Cell(File, Dir), Cell(Dir, File)]),
    Phase(CreateCloudDirH, [Cell(Dir, Empty), Cell(Dir, File)]),
    Phase(UploadH, [Cell(File, Empty), Cell(File, Dir), Cell(File, File)])
  ]

  /** `sync_load`: remove locally, create local folders, download. */
  const LoadPlan: seq<Phase> := [
    Phase(RemoveLocalH, [Cell(File, Empty), Cell(File, Dir), Cell(Dir, Empty), Cell(Dir, File)]),
    Phase(CreateLocalDirH, [Cell(Empty, Dir), Cell(File, Dir)]),
    Phase(DownloadH, [Cell(Empty, File), Cell(Dir, File), Cell(File, File)])
  ]

  function Transpose(c: Cell): (r: Cell)
    ensures r.local == c.cloud && r.cloud == c.local
  {
    Cell(c.cloud, c.local)
  }

  /** Save removes from the cloud exactly where the cloud holds something of another type,
   *  creates a cloud folder exactly where the local side is a folder and the cloud side is
   *  not, and uploads exactly where the local side is a file. */
  lemma SaveCellsCharacterised(c: Cell)
    ensures c in SavePlan[0].cells <==> c.cloud != Empty && c.cloud != c.local
    ensures c in SavePlan[1].cells <==> c.local == Dir && c.cloud != Dir
    ensures c in SavePlan[2].cells <==> c.local == File
  {
  }

  /** Load is the mirror image of save, phase by phase, with local and cloud exchanged. */
  lemma LoadCellsCharacterised(c: Cell)
    ensures c in LoadPlan[0].cells <==> c.local != Empty && c.local != c.cloud
    ensures c in LoadPlan[1].cells <==> c.cloud == Dir && c.local != Dir
    ensures c in LoadPlan[2].cells <==> c.cloud == File
  {
  }

  /** The load tables are the save tables with every cell transposed. */
  lemma LoadIsTransposedSave(c: Cell, k: nat)
    requires k < 3
    ensures c in LoadPlan[k].cells <==> Transpose(c) in SavePlan[k].cells
  {
    SaveCellsCharacterised(Transpose(c));
    LoadCellsCharacterised(c);
  }

  /** No cell appears twice in a phase, so the gathered list of a phase repeats no path. */
  lemma PhaseCellsDistinct(k: nat)
    requires k < 3
    ensures forall i, j :: 0 <= i < j < |SavePlan[k].cells| ==> SavePlan[k].cells[i] != SavePlan[k].cells[j]
    ensures forall i, j :: 0 <= i < j < |LoadPlan[k].cells| ==> LoadPlan[k].cells[i] != LoadPlan[k].cells[j]
  {
  }

  /** What a handler that succeeds leaves on the side it writes: removal leaves nothing,
   *  folder creation a folder, a transfer a file. */
  function Written(h: Handler, k: Kind): (r: Kind)
    ensures h in {RemoveCloudH, RemoveLocalH} ==> r == Empty
    ensures h in {CreateCloudDirH, CreateLocalDirH} ==> r == Dir
    ensures h in {UploadH, DownloadH} ==> r == File
  {
    match h
    case RemoveCloudH => Empty
    case RemoveLocalH => Empty
    case CreateCloudDirH => Dir
    case CreateLocalDirH => Dir
    case UploadH => File
    case DownloadH => File
  }

  /** The type of the written side of an item of cell `c` after the phases of `plan`, when
   *  every operation succeeds; `k` is what that side holds beforehand. */
  function AfterPlan(plan: seq<Phase>, c: Cell, k: Kind): Kind
  {
    if plan == [] then k
    else AfterPlan(plan[1..], c, if c in plan[0].cells then Written(plan[0].handler, k) else k)
  }

  /** When every operation succeeds, saving leaves the cloud holding what the local side
   *  holds, in every cell (including the cells no phase touches). */
  lemma SaveConverges(c: Cell)
    ensures AfterPlan(SavePlan, c, c.cloud) == c.local
  {
    var p := SavePlan;
    var k1 := if c in p[0].cells then Empty else c.cloud;
    var k2 := if c in p[1].cells then Dir else k1;
    var k3 := if c in p[2].cells then File else k2;
    assert p[1..][1..][1..] == [];
    assert AfterPlan(p, c, c.cloud) == AfterPlan(p[1..], c, k1) == AfterPlan(p[1..][1..], c, k2);
    assert AfterPlan(p[1..][1..], c, k2) == AfterPlan(p[1..][1..][1..], c, k3) == k3;
  }

  /** When every operation succeeds, loading leaves the local side holding what the cloud
   *  holds. */
  lemma LoadConverges(c: Cell)
    ensures AfterPlan(LoadPlan, c, c.local) == c.cloud
  {
    var p := LoadPlan;
    var k1 := if c in p[0].cells then Empty else c.local;
    var k2 := if c in p[1].cells then Dir else k1;
    var k3 := if c in p[2].cells then File else k2;
    assert p[1..][1..][1..] == [];
    assert AfterPlan(p, c, c.local) == AfterPlan(p[1..], c, k1) == AfterPlan(p[1..][1..], c, k2);
    assert AfterPlan(p[1..][1..], c, k2) == AfterPlan(p[1..][1..][1..], c, k3) == k3;
  }

  /** What a handler does to the item it is given, when its operation succeeded (`ok`) or
   *  failed. Uploads and downloads do not touch the item's states. */
  function Apply(h: Handler, p: Pair, ok: bool): (r: Pair)
    ensures h in {RemoveCloudH, CreateCloudDirH, UploadH, DownloadH} ==> r.local == p.local
    ensures h in {RemoveLocalH, CreateLocalDirH, UploadH, DownloadH} ==> r.cloud == p.cloud
    ensures h == RemoveCloudH ==> r.cloud.kind == Empty
    ensures h in {CreateCloudDirH, CreateLocalDirH, RemoveLocalH} && !ok ==> r == p
    ensures h in {UploadH, DownloadH} ==> r == p
    ensures h == CreateCloudDirH && ok ==> r.cloud.kind == Dir
    ensures h == CreateLocalDirH && ok ==> r.local.kind == Dir
    ensures h == RemoveLocalH && ok ==> r.local.kind == Empty
  {
    match h
    case RemoveCloudH => p.(cloud := AfterRemoveCloud(p.cloud, ok))
    case CreateCloudDirH => p.(cloud := AfterCreateCloudDir(p.cloud, if ok then Transport.Done(true) else Transport.Raised))
    case UploadH => p
    case RemoveLocalH => p.(local := AfterRemoveLocal(p.local, if ok then Done else OtherError))
    case CreateLocalDirH => p.(local := AfterCreateLocalDir(p.local, ok))
    case DownloadH => p
  }

  /** Running a handler twice on an item does what running it once does. */
  lemma ApplyIdempotent(h: Handler, p: Pair, ok: bool)
    ensures Apply(h, Apply(h, p, ok), ok) == Apply(h, p, ok)
  {
  }

  /** The dictionary after a handler ran once on every listed path. */
  function Applied(h: Handler, items: map<string, Pair>, paths: seq<string>, ok: set<string>): (r: map<string, Pair>)
    ensures r.Keys == items.Keys
    ensures forall p :: p in items && p !in paths ==> r[p] == items[p]
    ensures forall p :: p in items && p in paths ==> r[p] == Apply(h, items[p], p in ok)
  {
    map p | p in items :: if p in paths then Apply(h, items[p], p in ok) else items[p]
  }

  /** Which paths a handler ran on is all that matters, not their order or repeats. */
  lemma AppliedSameSet(h: Handler, items: map<string, Pair>, a: seq<string>, b: seq<string>, ok: set<string>)
    requires forall p :: p in a <==> p in b
    ensures Applied(h, items, a, ok) == Applied(h, items, b, ok)
  {
  }

  /** Running the handler on one more path: that path's pair is handled once more, which
   *  changes nothing when it was handled already. */
  lemma AppliedStep(h: Handler, items: map<string, Pair>, paths: seq<string>, p: string, ok: set<string>)
    requires p in items
    ensures Applied(h, items, paths + [p], ok) == Applied(h, items, paths, ok)[p := Apply(h, Applied(h, items, paths, ok)[p], p in ok)]
  {
    var a := Applied(h, items, paths, ok);
    var b := Applied(h, items, paths + [p], ok);
    if p in paths {
      ApplyIdempotent(h, items[p], p in ok);
    }
    forall q | q in items ensures b[q] == a[p := Apply(h, a[p], p in ok)][q] {
      if q != p {
        assert q in paths + [p] <==> q in paths;
      }
    }
  }

  /** `min(THREADS_COUNT, n)` with THREADS_COUNT = 16. */
  const ThreadsCount := 16

  function PoolSize(n: nat): (w: nat)
    ensures w <= ThreadsCount && w <= n
    ensures n > 0 ==> w > 0
    ensures w == n || w == ThreadsCount
  {
    Min(ThreadsCount, n)
  }

  /** Every path's cloud path. */
  function CloudPaths(items: map<string, Pair>): (r: map<string, string>)
    ensures r.Keys == items.Keys
    ensures forall p :: p in items ==> r[p] == items[p].cloud.path
  {
    map p | p in items :: items[p].cloud.path
  }

  /** The sort key `multythread_operation` uses: the item's cloud path, compared as
   *  pathlib compares paths. */
  function CloudKey(cloudPaths: map<string, string>): string -> seq<string>
  {
    p => if p in cloudPaths then PathKey(cloudPaths[p]) else []
  }

  /** No handler moves an item: the cloud paths, and so the sort key, stay the same. */
  lemma AppliedKeepsCloudPaths(h: Handler, items: map<string, Pair>, paths: seq<string>, ok: set<string>)
    ensures CloudPaths(Applied(h, items, paths, ok)) == CloudPaths(items)
  {
    var r := Applied(h, items, paths, ok);
    forall p | p in items ensures r[p].cloud.path == items[p].cloud.path {
    }
  }

  /** Items whose cloud paths sit under one root are submitted in the order of their
   *  relative paths, so a folder is submitted before everything inside it. */
  lemma CloudOrderIsRelativeOrder(cloudPaths: map<string, string>, root: string, a: string, b: string)
    requires a in cloudPaths && b in cloudPaths
    requires cloudPaths[a] == root + "/" + a && cloudPaths[b] == root + "/" + b
    ensures ListLess(CloudKey(cloudPaths)(a), CloudKey(cloudPaths)(b)) <==> ListLess(PathKey(a), PathKey(b))
  {
    SharedRootKeepsOrder(root, a, b);
  }

  /** The dictionary after the phases of a plan ran one after the other, each on the items
   *  its cells gather from the matrix. */
  function PlanApplied(plan: seq<Phase>, m: map<Cell, seq<string>>, items: map<string, Pair>, ok: set<string>): (r: map<string, Pair>)
    requires forall k, c :: 0 <= k < |plan| && c in plan[k].cells ==> c in m
    ensures r.Keys == items.Keys
    ensures CloudPaths(r) == CloudPaths(items)
  {
    if plan == [] then items
    else
      var n := |plan| - 1;
      var front := PlanApplied(plan[..n], m, items, ok);
      AppliedKeepsCloudPaths(plan[n].handler, front, Gather(m, plan[n].cells), ok);
      Applied(plan[n].handler, front, Gather(m, plan[n].cells), ok)
  }

  /** A plan of three phases is the three handlers applied in turn, each to the dictionary
   *  the previous one left. */
  lemma {:induction false} PlanAppliedThree(plan: seq<Phase>, m: map<Cell, seq<string>>, items: map<string, Pair>, ok: set<string>)
    requires |plan| == 3 && forall k, c :: 0 <= k < |plan| && c in plan[k].cells ==> c in m
    ensures var a0 := Applied(plan[0].handler, items, Gather(m, plan[0].cells), ok);
      var a1 := Applied(plan[1].handler, a0, Gather(m, plan[1].cells), ok);
      PlanApplied(plan, m, items, ok) == Applied(plan[2].handler, a1, Gather(m, plan[2].cells), ok)
      && PlanApplied(plan[..2], m, items, ok) == a1
  {
    assert plan[..0] == [];
    PlanAppliedStep(plan, m, items, ok, 0);
    PlanAppliedStep(plan, m, items, ok, 1);
    PlanAppliedStep(plan, m, items, ok, 2);
    assert plan[..3] == plan;
  }

  /** One more phase of a plan applies its handler to what the earlier phases left. */
  lemma PlanAppliedStep(plan: seq<Phase>, m: map<Cell, seq<string>>, items: map<string, Pair>, ok: set<string>, j: nat)
    requires j < |plan| && forall k, c :: 0 <= k < |plan| && c in plan[k].cells ==> c in m
    ensures PlanApplied(plan[..j + 1], m, items, ok) == Applied(plan[j].handler, PlanApplied(plan[..j], m, items, ok), Gather(m, plan[j].cells), ok)
  {
    assert plan[..j + 1][..j] == plan[..j];
    assert plan[..j + 1][j] == plan[j];
  }

  /** The transfer the handler makes for one item: an upload from its local path to its
   *  cloud path, a download the other way, nothing for the other handlers. */
  function TransferOf(h: Handler, pair: Pair): (r: seq<Transfer>)
    ensures h !in {UploadH, DownloadH} <==> r == []
    ensures h == UploadH ==> r == [Transfer(pair.local.path, pair.cloud.path)]
    ensures h == DownloadH ==> r == [Transfer(pair.cloud.path, pair.local.path)]
  {
    if h == UploadH then [UploadTransfer(pair.local.path, pair.cloud.path)]
    else if h == DownloadH then [DownloadTransfer(pair.local.path, pair.cloud.path)]
    else []
  }

  /** The handlers that transfer do not change the item, so the state they leave
   *  transfers the same way again. */
  lemma TransferOfApplied(h: Handler, pair: Pair, ok: bool)
    ensures TransferOf(h, Apply(h, pair, ok)) == TransferOf(h, pair)
  {
  }

  /** The transfers an upload or download phase makes, one per submitted item, in
   *  submission order; the other handlers transfer nothing. */
  function TransfersOf(h: Handler, items: map<string, Pair>, paths: seq<string>): (r: seq<Transfer>)
    requires forall p :: p in paths ==> p in items
    ensures h !in {UploadH, DownloadH} ==> r == []
    ensures h in {UploadH, DownloadH} ==> |r| == |paths|
    ensures h == UploadH ==> forall i :: 0 <= i < |paths| ==>
      r[i].source == items[paths[i]].local.path && r[i].target == items[paths[i]].cloud.path
    ensures h == DownloadH ==> forall i :: 0 <= i < |paths| ==>
      r[i].source == items[paths[i]].cloud.path && r[i].target == items[paths[i]].local.path
  {
    if paths == [] then []
    else
      var n := |paths| - 1;
      var p := paths[n];
      assert p in paths;
      TransfersOf(h, items, paths[..n]) + TransferOf(h, items[p])
  }

  /** One more submitted path adds its transfer at the end. */
  lemma TransfersOfStep(h: Handler, items: map<string, Pair>, paths: seq<string>, p: string)
    requires forall q :: q in paths ==> q in items
    requires p in items
    ensures TransfersOf(h, items, paths + [p]) == TransfersOf(h, items, paths) + TransferOf(h, items[p])
  {
    assert (paths + [p])[..|paths|] == paths;
  }

  /** Handling the next submitted item, in the state the earlier ones left: the item is
   *  handled once more and its transfer, the one its original state calls for, is added. */
  lemma HandledStep(h: Handler, items: map<string, Pair>, s: seq<string>, i: nat, ok: set<string>)
    requires i < |s| && forall q :: q in s ==> q in items
    ensures var a := Applied(h, items, s[..i], ok);
      && Applied(h, items, s[..i + 1], ok) == a[s[i] := Apply(h, a[s[i]], s[i] in ok)]
      && TransfersOf(h, items, s[..i + 1]) == TransfersOf(h, items, s[..i]) + TransferOf(h, a[s[i]])
  {
    var p := s[i];
    assert s[..i + 1] == s[..i] + [p];
    AppliedStep(h, items, s[..i], p, ok);
    TransfersOfStep(h, items, s[..i], p);
    if p in s[..i] {
      TransferOfApplied(h, items[p], p in ok);
    }
  }

  /** The executor going through `s` one path at a time from the dictionary `items`: each
   *  present item is handled in the state the earlier ones left, and its transfer added. */
  function Handled(h: Handler, items: map<string, Pair>, s: seq<string>, ok: set<string>): (r: (map<string, Pair>, seq<Transfer>))
    ensures r.0.Keys == items.Keys
  {
    if s == [] then (items, [])
    else
      var front := Handled(h, items, s[..|s| - 1], ok);
      var p := s[|s| - 1];
      if p in front.0 then (front.0[p := Apply(h, front.0[p], p in ok)], front.1 + TransferOf(h, front.0[p]))
      else front
  }

  /** Going through the submitted paths one by one ends in the dictionary where the handler
   *  ran once on each of them, having made the transfers their original states call for. */
  lemma {:induction false} HandledIsApplied(h: Handler, items: map<string, Pair>, s: seq<string>, ok: set<string>)
    requires forall q :: q in s ==> q in items
    ensures Handled(h, items, s, ok) == (Applied(h, items, s, ok), TransfersOf(h, items, s))
    decreases |s|
  {
    if s == [] {
      assert Applied(h, items, s, ok) == items;
    } else {
      var n := |s| - 1;
      assert s[n] in items;
      HandledIsApplied(h, items, s[..n], ok);
      HandledStep(h, items, s, n, ok);
      assert s[..n + 1] == s;
    }
  }
}
