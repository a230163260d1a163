/**
 * The state of one synchronised path (`ItemState`) and the pair of states,
 * local and cloud, that one path has (`SyncItem`), with the mutators the
 * synchroniser applies to them.
 *
 * Every mutator is specified by a function on state values; the executor of
 * the project applies the same functions to the values it keeps per path.
 * The filesystem and the cloud client are abstract: a mutator receives what
 * the filesystem or the client did (succeeded, raised, found a directory).
 */
module Items {
  import opened Wrappers
  import Transport

  /** `ItemType`: 'empty' (nothing at the path), 'file' or 'dir'. */
  datatype Kind = Empty | File | Dir

  /** The value of an `ItemState` (its modification time is not modelled). */
  datatype State = State(path: string, md5: string, kind: Kind, size: int)

  /** The value of a `SyncItem`: its local and its cloud state. */
  datatype Pair = Pair(local: State, cloud: State)

  /** A fresh `ItemState()`: path "", md5 "", type 'empty', size 0. */
  const Fresh: State := State("", "", Empty, 0)

  /** A dictionary as `to_dict` writes it and `from_dict` reads it: each key present or
   *  absent (other keys, such as the cloud's `name`, are never read). */
  datatype Record = Record(path: Option<string>, md5: Option<string>, kind: Option<Kind>, size: Option<int>)

  /** `to_dict`: every key present. */
  function AsDict(s: State): (d: Record)
  {
    Record(Some(s.path), Some(s.md5), Some(s.kind), Some(s.size))
  }

  /** `from_dict(data)`: nothing for `None`; otherwise md5, type and size are taken from the
   *  keys that are present. The path is never read from a dictionary. */
  function WithDict(s: State, data: Option<Record>): (r: State)
    ensures r.path == s.path
    ensures data.None? ==> r == s
  {
    match data
    case None => s
    case Some(d) => State(s.path, d.md5.GetOr(s.md5), d.kind.GetOr(s.kind), d.size.GetOr(s.size))
  }

  /** Absent keys keep the old values and present ones replace them. */
  lemma WithDictKeys(s: State, d: Record)
    ensures var r := WithDict(s, Some(d));
      && (d.md5.None? ==> r.md5 == s.md5) && (d.md5.Some? ==> r.md5 == d.md5.value)
      && (d.kind.None? ==> r.kind == s.kind) && (d.kind.Some? ==> r.kind == d.kind.value)
      && (d.size.None? ==> r.size == s.size) && (d.size.Some? ==> r.size == d.size.value)
  {
  }

  /** `from_dict(to_dict(s))` gives `s` back except that the receiver keeps its own path. */
  lemma WithDictOfAsDict(receiver: State, s: State)
    ensures WithDict(receiver, Some(AsDict(s))) == s.(path := receiver.path)
  {
  }

  /** Reading the same dictionary twice changes nothing the second time. */
  lemma WithDictIdempotent(s: State, data: Option<Record>)
    ensures WithDict(WithDict(s, data), data) == WithDict(s, data)
  {
  }

  // ------------------------------------------------------------- local side

  /** What the filesystem holds at a path: nothing, a directory, or a file whose bytes
   *  have the given MD5 digest and size. */
  datatype Found = Missing | FoundDir | FoundFile(md5: string, size: nat)

  /** `calc_local_state`: the type follows existence and `is_dir`; md5 and size are read
   *  for a file only, and otherwise keep their previous values. */
  function LocalStateOf(s: State, found: Found): (r: State)
    ensures r.path == s.path
    ensures r.kind == Empty <==> found == Missing
    ensures r.kind == Dir <==> found == FoundDir
    ensures r.kind == File ==> r.md5 == found.md5 && r.size == found.size
    ensures r.kind != File ==> r.md5 == s.md5 && r.size == s.size
  {
    match found
    case Missing => s.(kind := Empty)
    case FoundDir => s.(kind := Dir)
    case FoundFile(md5, size) => s.(kind := File, md5 := md5, size := size)
  }

  /** How a filesystem call ended: done, `FileNotFoundError`, or another exception. */
  datatype FsOutcome = Done | NotFound | OtherError

  /** `remove_local`: a directory or a file becomes 'empty' when its removal succeeds; on an
   *  error, and for 'empty', nothing changes. */
  function AfterRemoveLocal(s: State, outcome: FsOutcome): (r: State)
    ensures r == s || r == s.(kind := Empty)
    ensures r.kind == Empty <==> s.kind == Empty || outcome == Done
  {
    if s.kind != Empty && outcome == Done then s.(kind := Empty) else s
  }

  /** `create_local_dir`: 'dir' when `mkdir` succeeds, unchanged otherwise. */
  function AfterCreateLocalDir(s: State, ok: bool): (r: State)
    ensures r == s || r == s.(kind := Dir)
    ensures r.kind == Dir <==> ok || s.kind == Dir
    ensures !ok ==> r == s
  {
    if ok then s.(kind := Dir) else s
  }

  /** `remove_local_dir`: only a path that is a directory on disk is removed; it becomes
   *  'empty' when `rmdir` succeeds. */
  function AfterRemoveLocalDir(s: State, found: Found, ok: bool): (r: State)
    ensures r == s || r == s.(kind := Empty)
    ensures r.kind == Empty <==> s.kind == Empty || (found == FoundDir && ok)
  {
    if found == FoundDir && ok then s.(kind := Empty) else s
  }

  // ------------------------------------------------------------- cloud side

  /** `remove_cloud` and `remove_cloud_dir`: 'empty' whatever the client's `remove` answered. */
  function AfterRemoveCloud(s: State, removed: bool): (r: State)
    ensures r.kind == Empty
    ensures r.(kind := s.kind) == s
  {
    s.(kind := Empty)
  }

  /** `create_cloud_dir`: 'dir' unless `create_dir` raised; its boolean is not looked at. */
  function AfterCreateCloudDir(s: State, result: Transport.DirResult): (r: State)
    ensures r == s || r == s.(kind := Dir)
    ensures r.kind == Dir <==> !result.Raised? || s.kind == Dir
    ensures result.Raised? ==> r == s
  {
    if result.Raised? then s else s.(kind := Dir)
  }

  /** `calc_cloud_state`: `from_dict` of what `get_item_state` returned (None when the
   *  cloud had nothing at the path). */
  function CloudStateOf(s: State, metadata: Option<Record>): (r: State)
    ensures r.path == s.path
    ensures metadata.None? ==> r == s
  {
    WithDict(s, metadata)
  }

  // ------------------------------------------------------------- transfers

  /** A transfer between the two sides: the path read and the path written. */
  datatype Transfer = Transfer(source: string, target: string)

  /** The client's `download(local_path, cloud_path)`: reads the cloud path, writes the local
   *  one. */
  function ClientDownload(localPath: string, cloudPath: string): (t: Transfer)
    ensures t.source == cloudPath && t.target == localPath
  {
    Transfer(cloudPath, localPath)
  }

  /** The client's `upload(local_path, cloud_path)`: reads the local path, writes the cloud one. */
  function ClientUpload(localPath: string, cloudPath: string): (t: Transfer)
    ensures t.source == localPath && t.target == cloudPath
  {
    Transfer(localPath, cloudPath)
  }

  /** `download_file` as written: it hands `(cloud_path, local_path)` to a client method whose
   *  parameters are `(local_path, cloud_path)`. */
  function DownloadTransferAsWritten(localPath: string, cloudPath: string): Transfer
  {
    ClientDownload(cloudPath, localPath)
  }

  /** The arguments are swapped: the file read is the one named by the LOCAL path and the one
   *  written is named by the CLOUD path, so whenever the two differ (they always do: one is
   *  under the base folder, the other under `app:`) the download goes the wrong way. */
  lemma DownloadTransferSwapped(localPath: string, cloudPath: string)
    requires localPath != cloudPath
    ensures DownloadTransferAsWritten(localPath, cloudPath).source == localPath
    ensures DownloadTransferAsWritten(localPath, cloudPath).source != cloudPath
    ensures DownloadTransferAsWritten(localPath, cloudPath) != ClientDownload(localPath, cloudPath)
  {
  }

  /** `download_file` as evidently intended: the cloud file is written to the local path. */
  function DownloadTransfer(localPath: string, cloudPath: string): (t: Transfer)
    ensures t.source == cloudPath && t.target == localPath
  {
    ClientDownload(localPath, cloudPath)
  }

  /** `upload_file`: the local file is written to the cloud path. */
  function UploadTransfer(localPath: string, cloudPath: string): (t: Transfer)
    ensures t.source == localPath && t.target == cloudPath
  {
    ClientUpload(localPath, cloudPath)
  }

  /** Download and upload of one item move bytes in opposite directions between the same
   *  two paths. */
  lemma TransfersOpposite(localPath: string, cloudPath: string)
    ensures DownloadTransfer(localPath, cloudPath).source == UploadTransfer(localPath, cloudPath).target
    ensures DownloadTransfer(localPath, cloudPath).target == UploadTransfer(localPath, cloudPath).source
  {
  }

  // ------------------------------------------------------------- the classes

  /** `ItemState`: one side's state of one path, updated in place. */
  class ItemState {
    var path: string
    var md5: string
    var kind: Kind
    var size: int

    function Value(): State
      reads this
    {
      State(path, md5, kind, size)
    }

    constructor()
      ensures Value() == Fresh
    {
      path := "";
      md5 := "";
      kind := Empty;
      size := 0;
    }

    /** `from_dict`. */
    method FromDict(data: Option<Record>)
      modifies this
      ensures Value() == WithDict(old(Value()), data)
    {
      if data.Some? {
        var d := data.value;
        if d.md5.Some? { md5 := d.md5.value; }
        if d.kind.Some? { kind := d.kind.value; }
        if d.size.Some? { size := d.size.value; }
      }
    }
  }

  /** `SyncItem`: the local and the cloud state of one path. */
  class SyncItem {
    const local: ItemState
    const cloud: ItemState

    ghost predicate Valid()
      reads this
    {
      local != cloud
    }

    /** Two fresh states whose paths are the given ones. */
    constructor(localPath: string, cloudPath: string)
      ensures Valid() && fresh(local) && fresh(cloud)
      ensures local.Value() == Fresh.(path := localPath)
      ensures cloud.Value() == Fresh.(path := cloudPath)
    {
      var l := new ItemState();
      var c := new ItemState();
      l.path := localPath;
      c.path := cloudPath;
      local := l;
      cloud := c;
    }

    function Value(): Pair
      reads this, local, cloud
    {
      Pair(local.Value(), cloud.Value())
    }

    /** The `local_path` getter. */
    function LocalPath(): string
      reads this, local
    {
      local.path
    }

    /** The `cloud_path` getter. */
    function CloudPath(): string
      reads this, cloud
    {
      cloud.path
    }

    /** The `local_path` setter: the value is stored as the local state's path and read back
     *  by the getter; nothing else changes. */
    method SetLocalPath(value: string)
      requires Valid()
      modifies local
      ensures LocalPath() == value
      ensures local.Value() == old(local.Value()).(path := value)
      ensures cloud.Value() == old(cloud.Value())
    {
      local.path := value;
    }

    /** The `cloud_path` setter. */
    method SetCloudPath(value: string)
      requires Valid()
      modifies cloud
      ensures CloudPath() == value
      ensures cloud.Value() == old(cloud.Value()).(path := value)
      ensures local.Value() == old(local.Value())
    {
      cloud.path := value;
    }

    method CalcLocalState(found: Found)
      requires Valid()
      modifies local
      ensures local.Value() == LocalStateOf(old(local.Value()), found)
      ensures cloud.Value() == old(cloud.Value())
    {
      match found {
        case Missing => local.kind := Empty;
        case FoundDir => local.kind := Dir;
        case FoundFile(m, n) =>
          local.kind := File;
          local.md5 := m;
          local.size := n;
      }
    }

    method CalcCloudState(metadata: Option<Record>)
      requires Valid()
      modifies cloud
      ensures cloud.Value() == CloudStateOf(old(cloud.Value()), metadata)
      ensures local.Value() == old(local.Value())
    {
      cloud.FromDict(metadata);
    }

    method RemoveCloud(removed: bool)
      requires Valid()
      modifies cloud
      ensures cloud.Value() == AfterRemoveCloud(old(cloud.Value()), removed)
      ensures local.Value() == old(local.Value())
    {
      cloud.kind := Empty;
    }

    method RemoveLocal(outcome: FsOutcome)
      requires Valid()
      modifies local
      ensures local.Value() == AfterRemoveLocal(old(local.Value()), outcome)
      ensures cloud.Value() == old(cloud.Value())
    {
      if local.kind == Dir {
        if outcome == Done {
          local.kind := Empty;
        }
      } else if local.kind == File {
        if outcome == Done {
          local.kind := Empty;
        }
      }
    }

    /** `download_file`: the transfer the client is asked for, as written. */
    method DownloadFile() returns (t: Transfer)
      ensures t == DownloadTransferAsWritten(LocalPath(), CloudPath())
    {
      t := ClientDownload(cloud.path, local.path);
    }

    method UploadFile() returns (t: Transfer)
      ensures t == UploadTransfer(LocalPath(), CloudPath())
    {
      t := ClientUpload(local.path, cloud.path);
    }

    method CreateLocalDir(ok: bool)
      requires Valid()
      modifies local
      ensures local.Value() == AfterCreateLocalDir(old(local.Value()), ok)
      ensures cloud.Value() == old(cloud.Value())
    {
      if ok {
        local.kind := Dir;
      }
    }

    method CreateCloudDir(result: Transport.DirResult)
      requires Valid()
      modifies cloud
      ensures cloud.Value() == AfterCreateCloudDir(old(cloud.Value()), result)
      ensures local.Value() == old(local.Value())
    {
      if !result.Raised? {
        cloud.kind := Dir;
      }
    }

    method RemoveLocalDir(found: Found, ok: bool)
      requires Valid()
      modifies local
      ensures local.Value() == AfterRemoveLocalDir(old(local.Value()), found, ok)
      ensures cloud.Value() == old(cloud.Value())
    {
      if found == FoundDir {
        if ok {
          local.kind := Empty;
        }
      }
    }

    method RemoveCloudDir(removed: bool)
      requires Valid()
      modifies cloud
      ensures cloud.Value() == AfterRemoveCloud(old(cloud.Value()), removed)
      ensures local.Value() == old(local.Value())
    {
      cloud.kind := Empty;
    }
  }
}
