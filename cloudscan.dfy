/**
 * The bookkeeping of `_scan_cloud_items_parallel`: the queue of folders still to list,
 * the set `scanned_folders`, and what the dictionary gains from each listing. The
 * client's answer for every folder is a map from the folder's relative path to its
 * entries; a folder missing from the map is one whose listing raised.
 */
module CloudScan {
  import opened Strings
  import opened Items
  import opened Reconcile
  import opened Scan

  /** The subfolders a folder's listing yields. */
  function SubsOf(skip: (string, bool) -> bool, listing: map<string, seq<CloudEntry>>, f: string): seq<string>
    requires f in listing
  {
    Subfolders(skip, f, listing[f], |listing[f]|)
  }

  /** The paths a folder's listing files. */
  predicate ListedBy(skip: (string, bool) -> bool, listing: map<string, seq<CloudEntry>>, f: string, p: string)
    requires f in listing
  {
    Listed(skip, f, listing[f], p)
  }

  /** The subfolders not scanned yet, in order (`if subfolder not in scanned_folders`). */
  function Unscanned(subs: seq<string>, scanned: set<string>): (r: seq<string>)
    ensures forall s :: s in r <==> s in subs && s !in scanned
    ensures |r| <= |subs|
  {
    if subs == [] then []
    else (if subs[0] in scanned then [] else [subs[0]]) + Unscanned(subs[1..], scanned)
  }

  /** Every folder the scan can ever queue: the root and every subfolder a listing yields. */
  ghost function Candidates(skip: (string, bool) -> bool, listing: map<string, seq<CloudEntry>>): set<string>
  {
    {""} + set f, s | f in listing && s in SubsOf(skip, listing, f) :: s
  }

  /** How many candidates are not scanned yet: what each wave that lists something
   *  decreases. */
  ghost function Unvisited(skip: (string, bool) -> bool, listing: map<string, seq<CloudEntry>>, scanned: set<string>): nat
  {
    |Candidates(skip, listing) - scanned|
  }

  /** `x` is the root or a subfolder yielded by one of the listed folders in `fs`. */
  ghost predicate Reached(skip: (string, bool) -> bool, listing: map<string, seq<CloudEntry>>, fs: seq<string>, x: string)
  {
    x == "" || exists j :: 0 <= j < |fs| && fs[j] in listing && x in SubsOf(skip, listing, fs[j])
  }

  /** Every folder in `fs` is the root or was found by a folder listed before it. */
  ghost predicate Discovered(skip: (string, bool) -> bool, listing: map<string, seq<CloudEntry>>, fs: seq<string>)
  {
    forall k :: 0 <= k < |fs| ==> Reached(skip, listing, fs[..k], fs[k])
  }

  /** Every listable subfolder of a folder in `fs` is in `fs` or still `waiting`. */
  ghost predicate Closed(skip: (string, bool) -> bool, listing: map<string, seq<CloudEntry>>, fs: seq<string>, waiting: set<string>)
  {
    forall j, s :: 0 <= j < |fs| && fs[j] in listing && s in SubsOf(skip, listing, fs[j]) && s in listing ==>
      s in fs || s in waiting
  }

  /** The state of the scan between two folders: `processed` lists, in order and once each,
   *  the folders whose entries were filed; `scanned` is the set of them; `waiting` holds
   *  what is queued. */
  ghost predicate WaveState(skip: (string, bool) -> bool, listing: map<string, seq<CloudEntry>>, processed: seq<string>, scanned: set<string>, waiting: set<string>)
  {
    && Distinct(processed)
    && (forall x :: x in scanned <==> x in processed)
    && (forall x :: x in processed ==> x in listing)
    && Discovered(skip, listing, processed)
    && (forall x :: x in waiting ==> Reached(skip, listing, processed, x))
    && Closed(skip, listing, processed, waiting)
    && ("" in listing ==> "" in scanned || "" in waiting)
  }

  /** Some folder in `fs` files `p`. */
  ghost predicate ListedByAny(skip: (string, bool) -> bool, listing: map<string, seq<CloudEntry>>, fs: seq<string>, p: string)
  {
    exists f :: f in fs && f in listing && ListedBy(skip, listing, f, p)
  }

  /** The dictionary once `process_folder_items` has filed the listings of the folders `fs`,
   *  one after the other; a folder whose listing raised files nothing. */
  function FiledFolders(t0: Table, localRoot: string, cloudRoot: string, skip: (string, bool) -> bool, listing: map<string, seq<CloudEntry>>, fs: seq<string>): Table
    decreases |fs|
  {
    if fs == [] then t0
    else
      var f := fs[|fs| - 1];
      var t := FiledFolders(t0, localRoot, cloudRoot, skip, listing, fs[..|fs| - 1]);
      if f in listing then FileListing(t, localRoot, cloudRoot, skip, f, listing[f], |listing[f]|) else t
  }

  /** What the dictionary `t0` has become once the folders `fs` were filed: exactly their
   *  listings filed in order, so that it gained the paths they list (appended to the order)
   *  and no local state changed. */
  ghost predicate Grown(t0: Table, t: Table, localRoot: string, cloudRoot: string, skip: (string, bool) -> bool, listing: map<string, seq<CloudEntry>>, fs: seq<string>)
  {
    && t == FiledFolders(t0, localRoot, cloudRoot, skip, listing, fs)
    && TableOk(t0) && TableOk(t)
    && |t0.order| <= |t.order| && t.order[..|t0.order|] == t0.order
    && (forall p :: p in t.items <==> p in t0.items || ListedByAny(skip, listing, fs, p))
    && (forall p :: p in t0.items ==> p in t.items && t.items[p].local == t0.items[p].local)
    && (forall p :: p in t.items && p !in t0.items ==> t.items[p].local == NewPair(localRoot, cloudRoot, p).local)
  }

  /** The folders of a queue, as a set. */
  ghost function Elems(s: seq<string>): set<string>
  {
    set x | x in s
  }

  /** The folders of a queue from its `j`-th on. */
  lemma DropSet(s: seq<string>, j: nat)
    requires j < |s|
    ensures Elems(s[j..]) == {s[j]} + Elems(s[j + 1..])
  {
    assert s[j..] == [s[j]] + s[j + 1..];
  }

  /** Before the first wave only the root is queued. */
  lemma WaveStart(skip: (string, bool) -> bool, listing: map<string, seq<CloudEntry>>)
    ensures WaveState(skip, listing, [], {}, {""})
  {
  }

  lemma GrownStart(t0: Table, localRoot: string, cloudRoot: string, skip: (string, bool) -> bool, listing: map<string, seq<CloudEntry>>)
    requires TableOk(t0)
    ensures Grown(t0, t0, localRoot, cloudRoot, skip, listing, [])
  {
  }

  /** Filing one more listed folder keeps `Grown`. */
  lemma GrownStep(t0: Table, t1: Table, t2: Table, localRoot: string, cloudRoot: string, skip: (string, bool) -> bool, listing: map<string, seq<CloudEntry>>, fs: seq<string>, f: string)
    requires Grown(t0, t1, localRoot, cloudRoot, skip, listing, fs) && f in listing
    requires t2 == FileListing(t1, localRoot, cloudRoot, skip, f, listing[f], |listing[f]|)
    ensures Grown(t0, t2, localRoot, cloudRoot, skip, listing, fs + [f])
  {
    var entries := listing[f];
    assert (fs + [f])[..|fs|] == fs;
    FileListingKeys(t1, localRoot, cloudRoot, skip, f, entries, |entries|);
    FileListingOrder(t1, localRoot, cloudRoot, skip, f, entries, |entries|);
    FileListingKeepsLocal(t1, localRoot, cloudRoot, skip, f, entries, |entries|);
    assert entries[..|entries|] == entries;
    forall p ensures p in t2.items <==> p in t0.items || ListedByAny(skip, listing, fs + [f], p) {
      if ListedByAny(skip, listing, fs + [f], p) {
        var g :| g in fs + [f] && g in listing && ListedBy(skip, listing, g, p);
        if g != f {
          assert ListedByAny(skip, listing, fs, p);
        }
      }
      if ListedByAny(skip, listing, fs, p) {
        var g :| g in fs && g in listing && ListedBy(skip, listing, g, p);
        assert g in fs + [f];
      }
      if ListedBy(skip, listing, f, p) {
        assert f in fs + [f];
      }
    }
    assert t2.order[..|t0.order|] == t0.order by {
      assert t2.order[..|t1.order|] == t1.order;
      assert t2.order[..|t1.order|][..|t0.order|] == t2.order[..|t0.order|];
    }
  }

  /** Listing a queued folder that was not scanned yet: it joins `processed`, and the
   *  subfolders it yields that were not scanned are queued. */
  lemma WaveProcess(skip: (string, bool) -> bool, listing: map<string, seq<CloudEntry>>, processed: seq<string>, scanned: set<string>, waiting: set<string>, f: string, waiting': set<string>)
    requires WaveState(skip, listing, processed, scanned, waiting)
    requires f in waiting && f in listing && f !in scanned
    requires waiting - {f} <= waiting'
    requires forall s :: s in SubsOf(skip, listing, f) && s !in scanned + {f} ==> s in waiting'
    requires forall x :: x in waiting' ==> x in waiting || x in SubsOf(skip, listing, f)
    ensures WaveState(skip, listing, processed + [f], scanned + {f}, waiting')
  {
    var fs := processed + [f];
    forall i, j | 0 <= i < j < |fs| ensures fs[i] != fs[j] {
      if j == |processed| {
        assert fs[i] == processed[i];
      } else {
        assert fs[i] == processed[i] && fs[j] == processed[j];
      }
    }
    forall x | x in waiting' ensures Reached(skip, listing, fs, x) {
      if x in waiting {
        if x != "" {
          var j :| 0 <= j < |processed| && processed[j] in listing && x in SubsOf(skip, listing, processed[j]);
          assert fs[j] == processed[j];
        }
      } else {
        assert fs[|processed|] == f;
      }
    }
    forall k | 0 <= k < |fs| ensures Reached(skip, listing, fs[..k], fs[k]) {
      if k < |processed| {
        assert fs[..k] == processed[..k];
        assert fs[k] == processed[k];
      } else {
        assert fs[..k] == processed;
        assert fs[k] == f;
      }
    }
    forall j, s | 0 <= j < |fs| && fs[j] in listing && s in SubsOf(skip, listing, fs[j]) && s in listing
      ensures s in fs || s in waiting'
    {
      if j < |processed| {
        assert fs[j] == processed[j];
        assert s in processed || s in waiting;
        if s in processed {
          assert s in fs;
        }
      } else {
        assert fs[j] == f;
        if s in scanned {
          assert s in processed;
        }
      }
      if s in processed {
        assert s in fs;
      }
      if s == f {
        assert fs[|processed|] == f;
      }
    }
  }

  /** Passing over a queued folder whose listing raised or that was scanned already. */
  lemma WaveSkip(skip: (string, bool) -> bool, listing: map<string, seq<CloudEntry>>, processed: seq<string>, scanned: set<string>, waiting: set<string>, f: string, waiting': set<string>)
    requires WaveState(skip, listing, processed, scanned, waiting)
    requires f !in listing || f in scanned
    requires waiting - {f} <= waiting' <= waiting
    ensures WaveState(skip, listing, processed, scanned, waiting')
  {
  }

  /** The state of a wave after its first `j` folders: `scanned0` is the set the wave
   *  started from, `pending` what it queued so far, and `batch[j..]` what it has still to
   *  go through. */
  ghost predicate WaveInv(skip: (string, bool) -> bool, listing: map<string, seq<CloudEntry>>, t0: Table, t: Table, localRoot: string, cloudRoot: string,
                          processed: seq<string>, scanned: set<string>, scanned0: set<string>, pending: seq<string>, batch: seq<string>, j: nat)
  {
    && j <= |batch|
    && WaveState(skip, listing, processed, scanned, Elems(pending) + Elems(batch[j..]))
    && Grown(t0, t, localRoot, cloudRoot, skip, listing, processed)
    && scanned0 <= scanned && (scanned == scanned0 ==> pending == [])
  }

  /** The first wave holds only the root, and nothing was filed yet. */
  lemma WaveInvStart(skip: (string, bool) -> bool, listing: map<string, seq<CloudEntry>>, t0: Table, localRoot: string, cloudRoot: string)
    requires TableOk(t0)
    ensures WaveInv(skip, listing, t0, t0, localRoot, cloudRoot, [], {}, {}, [], [""], 0)
  {
    assert Elems([]) + Elems([""][0..]) == {""} by {
      assert [""][0..] == [""];
    }
    WaveStart(skip, listing);
    GrownStart(t0, localRoot, cloudRoot, skip, listing);
  }

  /** `batch[j]` was listed and not scanned: it is scanned, its entries are filed into the
   *  dictionary, and its unscanned subfolders are queued. */
  lemma WaveInvProcess(skip: (string, bool) -> bool, listing: map<string, seq<CloudEntry>>, t0: Table, t: Table, t': Table, localRoot: string, cloudRoot: string,
                       processed: seq<string>, scanned: set<string>, scanned0: set<string>, pending: seq<string>, batch: seq<string>, j: nat)
    requires WaveInv(skip, listing, t0, t, localRoot, cloudRoot, processed, scanned, scanned0, pending, batch, j)
    requires j < |batch| && batch[j] in listing && batch[j] !in scanned
    requires t' == FileListing(t, localRoot, cloudRoot, skip, batch[j], listing[batch[j]], |listing[batch[j]]|)
    ensures var f := batch[j];
      WaveInv(skip, listing, t0, t', localRoot, cloudRoot, processed + [f], scanned + {f}, scanned0,
              pending + Unscanned(SubsOf(skip, listing, f), scanned + {f}), batch, j + 1)
  {
    var f := batch[j];
    var queued := Unscanned(SubsOf(skip, listing, f), scanned + {f});
    DropSet(batch, j);
    assert Elems(pending + queued) == Elems(pending) + Elems(queued);
    WaveProcess(skip, listing, processed, scanned, Elems(pending) + Elems(batch[j..]), f, Elems(pending + queued) + Elems(batch[j + 1..]));
    GrownStep(t0, t, t', localRoot, cloudRoot, skip, listing, processed, f);
    assert f !in scanned0;
  }

  /** `batch[j]` raised when listed, or was scanned already: nothing changes. */
  lemma WaveInvPass(skip: (string, bool) -> bool, listing: map<string, seq<CloudEntry>>, t0: Table, t: Table, localRoot: string, cloudRoot: string,
                    processed: seq<string>, scanned: set<string>, scanned0: set<string>, pending: seq<string>, batch: seq<string>, j: nat)
    requires WaveInv(skip, listing, t0, t, localRoot, cloudRoot, processed, scanned, scanned0, pending, batch, j)
    requires j < |batch| && (batch[j] !in listing || batch[j] in scanned)
    ensures WaveInv(skip, listing, t0, t, localRoot, cloudRoot, processed, scanned, scanned0, pending, batch, j + 1)
  {
    DropSet(batch, j);
    WaveSkip(skip, listing, processed, scanned, Elems(pending) + Elems(batch[j..]), batch[j], Elems(pending) + Elems(batch[j + 1..]));
  }

  /** At the end of a wave, what it queued becomes the next batch. */
  lemma WaveInvNext(skip: (string, bool) -> bool, listing: map<string, seq<CloudEntry>>, t0: Table, t: Table, localRoot: string, cloudRoot: string,
                    processed: seq<string>, scanned: set<string>, scanned0: set<string>, pending: seq<string>, batch: seq<string>)
    requires WaveInv(skip, listing, t0, t, localRoot, cloudRoot, processed, scanned, scanned0, pending, batch, |batch|)
    ensures WaveInv(skip, listing, t0, t, localRoot, cloudRoot, processed, scanned, scanned, [], pending, 0)
    ensures pending == [] || Unvisited(skip, listing, scanned) < Unvisited(skip, listing, scanned0)
    ensures Unvisited(skip, listing, scanned) <= Unvisited(skip, listing, scanned0)
  {
    assert batch[|batch|..] == [] && pending[0..] == pending;
    assert Elems(pending) + Elems(batch[|batch|..]) == Elems([]) + Elems(pending[0..]);
    ScannedAreCandidates(skip, listing, processed, scanned, Elems(pending));
    if scanned != scanned0 {
      SetShrinks(Candidates(skip, listing), scanned0, scanned);
    }
  }

  /** When nothing is queued any more, the scan is complete: see `WaveState`. */
  lemma WaveInvDone(skip: (string, bool) -> bool, listing: map<string, seq<CloudEntry>>, t0: Table, t: Table, localRoot: string, cloudRoot: string,
                    processed: seq<string>, scanned: set<string>)
    requires WaveInv(skip, listing, t0, t, localRoot, cloudRoot, processed, scanned, scanned, [], [], 0)
    ensures Distinct(processed) && (forall f :: f in processed ==> f in listing)
    ensures Discovered(skip, listing, processed)
    ensures Closed(skip, listing, processed, {})
    ensures "" in listing <==> processed != []
    ensures Grown(t0, t, localRoot, cloudRoot, skip, listing, processed)
  {
    assert Elems([]) + Elems([][0..]) == {};
    if processed != [] {
      assert Reached(skip, listing, processed[..0], processed[0]);
    }
  }

  /** Every scanned folder is a candidate. */
  lemma ScannedAreCandidates(skip: (string, bool) -> bool, listing: map<string, seq<CloudEntry>>, processed: seq<string>, scanned: set<string>, waiting: set<string>)
    requires WaveState(skip, listing, processed, scanned, waiting)
    ensures scanned <= Candidates(skip, listing)
  {
    forall x | x in scanned ensures x in Candidates(skip, listing) {
      var k :| 0 <= k < |processed| && processed[k] == x;
      assert Reached(skip, listing, processed[..k], x);
      if x != "" {
        var j :| 0 <= j < k && processed[..k][j] in listing && x in SubsOf(skip, listing, processed[..k][j]);
      }
    }
  }

  /** A strictly larger subset of `c` leaves fewer elements of `c` outside it. */
  lemma SetShrinks(c: set<string>, a: set<string>, b: set<string>)
    requires a < b && b <= c
    ensures |c - b| < |c - a|
  {
    var x :| x in b && x !in a;
    var d := c - b;
    var e := c - a;
    assert e == d + (e - d);
    assert d * (e - d) == {};
    assert x in e - d;
    assert e - d == ((e - d) - {x}) + {x};
  }
}
