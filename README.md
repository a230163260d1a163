# SyncBase core in Dafny

SyncBase keeps a knowledge base on disk in step with Yandex Disk. The base is a folder of
categories, each category holds projects, and project `<category>/<project>` is mirrored by
the cloud folder `app:/<category>/<project>`. This project models the decision logic of that
system and proves properties of it:

- **`.syncignore` rules** (`Ignore`): the parser that turns rule text into an ordered rule
  list, and the matcher that decides `should_ignore(path, is_dir)`. The last matching rule
  wins. Literal rules cover a path and everything below it. Glob rules use `fnmatch` on the
  whole path, on its last component and on every leading prefix.
- **Item state** (`Items`): `ItemState` and `SyncItem` as classes whose methods update the
  local and cloud states in place. Each method is specified by a pure transition function:
  `to_dict`/`from_dict`, `calc_local_state` over an abstract disk entry, and the
  remove/create mutators.
- **The reconciler** (`Reconcile`, `Scan`, `CloudScan`, `Cache`, `Project`). `SyncProject`
  is a class that holds `sync_items` (a dictionary with its insertion order) and the 3×3
  matrix `items_need_for_update`. Its operations:
  - the recursive local scan over a folder tree;
  - the cloud scan, run in waves over the listings the client returns;
  - the classification of every item into the matrix cell of its (local type, cloud type);
  - the three phases of `sync_save` and of `sync_load`, with the executor run sequentially
    in cloud-path order;
  - the cache that `set_cache` writes;
  - the diff that `show_status` reports.
- **The Yandex Disk client** (`Transport`): the retry policy of `_make_request` and
  `_upload_file_with_retry`, driven by a transcript of attempt outcomes. It also covers the
  integer part of the back-off, `Retry-After` parsing, `list` pagination against a
  transcript of pages, the recursion of `create_dir`, and the status rules of `exists`,
  `get_item_state`, `remove`, `move` and `copy`.
- **The command line** (`Base`): `_resolve_context`, `_iter_selected_projects`,
  `_select_targets`, the marks of `cmd_list`, and the rule in `main` that skips `save` and
  `status` for projects missing on disk.

Inputs stand in for I/O:
- The disk is a tree of `FileNode(md5, size, text)` and `DirNode(entries)`. Entry order
  stands for `iterdir` order, and the MD5 digest is a field of the file node.
- The cloud is the answer the client gives for each folder.
- Whether an operation succeeds is a set of paths.
- Python `str`/`Path` values are strings, and `sorted` uses the code-point order of
  strings (for `Path`s, component by component).
- `Strings` and `Order` hold the Python built-ins the core relies on. These are `strip`,
  `split`/`join`, `lstrip`/`rstrip`, `os.path.basename`, `os.path.join`, `sorted`, and
  pathlib's ordering.

The rule `build/` does not by itself ignore the file `build/x.txt`: directory rules are
skipped for files (sync_project.py:71-72). The model follows the code
(`Ignore.DirectoryRuleSkipsFiles`). Neither scan ever reaches such a file, because an
ignored folder is neither entered (`Scan.VisitSkipsIgnored`) nor queued
(`Scan.Subfolders`).

## Model

| member | source | states |
|---|---|---|
| Strings.Strip | sync_project.py:34-35 | `str.strip()`: the result is empty exactly when the line is all whitespace, and otherwise neither starts nor ends with whitespace |
| Strings.IsSpace | sync_project.py:34-35 | the characters `str.strip()` removes: ASCII whitespace, the separators 0x1c-0x1f, and the Unicode spaces and line and paragraph separators |
| Strings.LStrip | sync_project.py:34-35 | the result is a suffix of the input that does not start with whitespace, and every character dropped is whitespace |
| Strings.RStrip | sync_project.py:34-35 | the result is a prefix of the input that does not end with whitespace, and every character dropped is whitespace |
| Strings.StripIsTrim | sync_project.py:34-35 | `str.strip()` removes only whitespace at the two ends: its result is a slice of the line with nothing but whitespace before and after it |
| Strings.Split | sync_project.py:91 | `str.split(sep)`: at least one part, and no part contains the separator |
| Strings.Join | sync_project.py:91-93 | `sep.join(parts)`: the parts in order with one separator between neighbours; `JoinSplit` proves it inverts `Split` |
| Strings.JoinSplit | sync_project.py:91-93 | `'/'.join(path.split('/'))` gives back the path, so the last leading prefix the glob loop tries is the path itself |
| Strings.SplitWithoutSeparator | sync_base.py:68 | a relative path without a separator splits into itself alone |
| Strings.ReplaceChar | sync_project.py:63 | `replace('\\', '/')`: same length, and every backslash and only a backslash becomes a slash |
| Strings.LStripChar | sync_project.py:63 | `lstrip('/')`: a suffix of the input that does not start with '/', and only slashes were removed |
| Strings.RStripChar | sync_base.py:63 | `rstrip(os.sep)`: a prefix of the input that does not end with '/', and only slashes were removed |
| Strings.Basename | sync_project.py:88 | `os.path.basename`: a suffix of the path without '/', preceded by '/' when it is not the whole path |
| Strings.ChildPath | sync_project.py:249 | `os.path.join(current, name)` below a non-empty folder is `current + "/" + name` |
| Strings.PathJoin | sync_project.py:129 | `os.path.join(a, b)`: an absolute `b` replaces `a`; otherwise one '/' joins them unless `a` is empty or already ends with '/' |
| Order.StrLessIrreflexive | sync_base.py:88 | no string sorts before itself |
| Order.StrLess | sync_base.py:88 | Python's `<` on strings: lexicographic by code point, a proper prefix first; the three lemmas beside it prove it a strict total order |
| Order.StrLessTransitive | sync_base.py:88 | string order is transitive |
| Order.StrLessTotal | sync_base.py:88 | of two different strings one sorts before the other |
| Order.ListLessIrreflexive | sync_project.py:623 | no path sorts before itself under pathlib's component-wise order |
| Order.ListLess | sync_project.py:623 | the order `Path` comparison uses on component lists: lexicographic by `StrLess` on components, a proper prefix first; the lemmas beside it prove it a strict total order |
| Order.ListLessTransitive | sync_project.py:623 | pathlib's component-wise order is transitive |
| Order.ListLessTotal | sync_project.py:623 | of two different component lists one sorts first, so the sort key orders any two items |
| Order.ListLessPrefix | sync_project.py:623 | a path sorts before every path that extends it by more components |
| Order.NameKeyOrder | sync_base.py:30 | for single names, pathlib order is string order |
| Order.AncestorFirst | sync_project.py:623 | a folder sorts before everything inside it, so a folder is submitted before its contents |
| Order.SharedRootKeepsOrder | sync_project.py:623 | under one common root, ordering by full cloud path is ordering by relative path |
| Order.SortBy | sync_project.py:623 | `sorted(items, key=...)`: the result is ordered by the key and is a permutation of the input |
| Order.SortByMembers | sync_project.py:623 | sorting keeps exactly the items that were submitted |
| Order.InsertBy | sync_project.py:623 | one insertion step of the sort: the result is sorted by the key, one longer, and the input plus `x` as a multiset |
| Order.SortedNames | sync_base.py:88 | `sorted(set)` holds exactly the members of the set |
| Order.SortedNamesAscending | sync_base.py:88 | `sorted(set)` is strictly ascending, so it has no duplicates |
| Order.AscendingUnique | sync_base.py:88 | two strictly ascending lists with the same members are equal, so `sorted(set)` is determined by the set |
| Order.Enumerate | sync_base.py:88 | going through a set yields every member exactly once |
| Order.SortedSet | sync_base.py:88 | the method builds `sorted(set)`: strictly ascending, the same members, one entry per member |
| Transport.BackoffBase | yandex_disk_client.py:133-134 | the base delay is between 1 and 32 seconds |
| Transport.BackoffMonotone | yandex_disk_client.py:133-134 | the base delay never shrinks as the attempt number grows |
| Transport.BackoffDoubling | yandex_disk_client.py:133-134 | up to attempt 5 the base delay is `2^attempt`, strictly growing |
| Transport.WaitAfter | yandex_disk_client.py:83-107 | the sleep before a retry: `min(Retry-After, 60)` after a 429 response, otherwise the backoff of that attempt (server error or network error) |
| Transport.ParseShowInt | yandex_disk_client.py:86 | `int()` reads back every integer written in decimal |
| Transport.ParseInt | yandex_disk_client.py:86 | `int(s)` on a header value: a value exactly for optional surrounding whitespace, an optional sign and at least one ASCII digit; `ParseShowInt` proves `int(str(n)) == n` |
| Transport.AbsentRetryAfterIsOne | yandex_disk_client.py:86 | the default header text `'1'` reads as 1 |
| Transport.ReadRetryAfter | yandex_disk_client.py:85-88 | the header reads as absent exactly when it is missing, and as a number exactly when the modelled `int()` (`ParseInt`) accepts it: optional surrounding whitespace, an optional sign and at least one ASCII digit |
| Transport.RateLimitWait | yandex_disk_client.py:85-89 | the 429 wait is at most 60: `min(n, 60)` for a readable header `n`, and 1 for a missing or unreadable one |
| Transport.RateLimitWaitOfNumber | yandex_disk_client.py:86-89 | a header carrying the number `n` gives the wait `min(n, 60)` |
| Transport.RateLimitWaitOfGarbage | yandex_disk_client.py:86-88 | a missing header, or one `int()` refuses, gives the wait 1 |
| Transport.Policy | yandex_disk_client.py:64-121 | the `for attempt in range(max_retries + 1)` loop as a recursion over attempts: a retryable attempt before the last sleeps `WaitAfter` and goes on, a negative wait raises, anything else returns its response or None; the Policy lemmas below state this as iffs |
| Transport.PolicyStopped | yandex_disk_client.py:83-117 | an attempt that is final, or is the last one allowed, ends the request with its own response (None after an exception) and no further sleep |
| Transport.PolicyRaised | yandex_disk_client.py:89-91 | a negative `Retry-After` makes `time.sleep` raise, and the request ends with that exception |
| Transport.PolicyRetried | yandex_disk_client.py:83-109 | a retryable attempt before the last sleeps its wait, and the rest of the attempts decide the reply |
| Transport.PolicyRetries | yandex_disk_client.py:64-109 | every attempt before the stopping one was retryable, and the i-th recorded sleep is the wait of attempt i (429: Retry-After, otherwise the back-off) |
| Transport.PolicyStops | yandex_disk_client.py:64-117 | where a request stops: it raises exactly on a negative rate-limit wait before the last attempt; otherwise it returns the stopping attempt's response (None for an exception), and that attempt is the last allowed or not retryable |
| Transport.AttemptsBounded | yandex_disk_client.py:64 | a request makes at most `max_retries + 1` attempts |
| Transport.FirstFinalAnswerReturned | yandex_disk_client.py:102 | after retried attempts, the first non-retryable response is returned as it is, after exactly one sleep per earlier attempt |
| Transport.MakeRequest | yandex_disk_client.py:36-121 | the attempt loop returns exactly the reply and the sleeps of the retry policy |
| Transport.UploadAtMostEightPuts | yandex_disk_client.py:141-212 | with its default of 7 retries, an upload PUTs at most 8 times |
| Transport.RateLimitThenSuccess | yandex_disk_client.py:83-102 | 429 with `Retry-After: 2`, then 200: one sleep of 2 s, then the 200 response |
| Transport.ServerErrorThenSuccess | yandex_disk_client.py:94-102 | 500, then 200: one back-off sleep of 1 s, then the 200 response |
| Transport.ConnectionErrorThenSuccess | yandex_disk_client.py:104-109 | a connection error, then 200: one back-off sleep of 1 s, then the 200 response |
| Transport.ServerErrorsExhaustRetries | yandex_disk_client.py:94-102 | 500 on every attempt with 2 retries: sleeps of 1 s and 2 s, then the last 500 response is returned, not None |
| Transport.NetworkErrorsExhaustRetries | yandex_disk_client.py:104-112 | a timeout on every attempt with 2 retries: sleeps of 1 s and 2 s, then None |
| Transport.OtherErrorNotRetried | yandex_disk_client.py:114-117 | any other `RequestException` gives None at once, with no retry |
| Transport.UploadRateLimitThenCreated | yandex_disk_client.py:175-193 | an upload answered 429 without a header, then 201: one sleep of 1 s, then the 201 response |
| Transport.PageLimit | yandex_disk_client.py:237 | the page size is the requested limit, capped at 10000 |
| Transport.ListFrom | yandex_disk_client.py:239-272 | the pagination loop from request `i`: it asks again exactly while the accepted page was full and fewer than `total` items have arrived; `ListFromItems`, `ListFromOffsets` and `ListFromStops` state what it gathers |
| Transport.Listing | yandex_disk_client.py:214-277 | `list(path, limit)`: the pagination run from offset 0 with page size `min(limit, 10000)` |
| Transport.ListFromItems | yandex_disk_client.py:239-272 | `list` returns the pages it received, concatenated in order, and makes at most one request past the pages available |
| Transport.ListFromOffsets | yandex_disk_client.py:243-272 | every request's offset is the number of items gathered before it |
| Transport.ListFromStops | yandex_disk_client.py:246-269 | `list` asks again exactly while the page was a non-empty 200 page, fewer than `total` items have arrived, and the page was full; it stops at the first page that fails one of these |
| Transport.List | yandex_disk_client.py:214-277 | the pagination loop returns exactly the items and the offsets of the listing run |
| Transport.TwoPagesListing | yandex_disk_client.py:214-277 | pages of 3 and 2 items with total 5 at limit 3: two requests, at offsets 0 and 3, giving the 5 items in order |
| Transport.GetItemState | yandex_disk_client.py:287-296 | metadata comes back exactly when the response is a 200 (the `exists` test), and it is that response |
| Transport.Exists | yandex_disk_client.py:279-285 | `exists`: a response with status 200 |
| Transport.Removed | yandex_disk_client.py:318-328 | `remove` returns True exactly for a truthy response with status 202 or 204 |
| Transport.Relocated | yandex_disk_client.py:387-420 | `move` and `copy` return True exactly for a truthy response with status 201 or 202 |
| Transport.StatusRules | yandex_disk_client.py:279-420 | `remove` succeeds exactly on 202 or 204, `move` and `copy` exactly on 201 or 202, and an existing item has a truthy response |
| Transport.Parent | yandex_disk_client.py:312 | `Path.parent` drops the last component, and the empty path `.` is its own parent |
| Transport.CreateDir | yandex_disk_client.py:298-316 | `create_dir` as written: its first PUT is for the path itself, and it reads no more answers than the transcript holds |
| Transport.CreateDirPuts | yandex_disk_client.py:298-316 | every PUT of `create_dir` is for the path or one of its ancestors; without `create_parent` it PUTs once; when it reports success, its last PUT was for the path itself |
| Transport.RootRecursionUnbounded | yandex_disk_client.py:310-314 | at the path `.`, n rounds of "409, not found" make `create_dir` PUT `.` n + 1 times, so only the server can end the recursion |
| Transport.CreateDirBounded | yandex_disk_client.py:298-316 | corrected `create_dir`: at most `2·depth + 1` PUTs whatever the server answers, the first for the path itself, exactly one without `create_parent` |
| Items.WithDict | sync_item.py:40-59 | `from_dict` never changes the path, and falsy data changes nothing |
| Items.WithDictKeys | sync_item.py:45-47 | `from_dict` takes md5, type and size each from the dictionary when it has the key, and keeps them otherwise |
| Items.WithDictOfAsDict | sync_item.py:29-59 | round trip: `from_dict(to_dict(s))` restores md5, type and size of `s` and keeps the receiver's path |
| Items.WithDictIdempotent | sync_item.py:40-59 | applying the same dictionary twice is applying it once |
| Items.LocalStateOf | sync_item.py:142-164 | `calc_local_state`: the type is empty exactly for a missing entry and dir exactly for a folder; a file takes its digest and size; otherwise digest and size are kept |
| Items.AfterRemoveLocal | sync_item.py:176-187 | `remove_local` changes only the type, and the type is empty afterwards exactly when it was empty or the removal succeeded |
| Items.AfterCreateLocalDir | sync_item.py:197-204 | `create_local_dir` changes at most the type; the item is a folder afterwards exactly when `mkdir` succeeded or it already was one; a failure changes nothing |
| Items.AfterRemoveLocalDir | sync_item.py:216-224 | `remove_local_dir` changes at most the type; the type is empty afterwards exactly when it already was, or the path is a folder on disk and `rmdir` succeeded |
| Items.AfterRemoveCloud | sync_item.py:172-174 | the cloud type is empty afterwards, whatever `remove` returned, and path, digest and size are kept |
| Items.AfterCreateCloudDir | sync_item.py:206-213 | `create_cloud_dir` changes at most the type; the cloud side is a folder afterwards exactly when `create_dir` returned (even `False`) or it already was one; when it raised, nothing changes |
| Items.CloudStateOf | sync_item.py:166-169 | `calc_cloud_state` keeps the path, and without metadata it keeps the whole state |
| Items.ClientDownload | yandex_disk_client.py:330 | `download(local_path, cloud_path)` copies the cloud path into the local path |
| Items.ClientUpload | yandex_disk_client.py:357 | `upload(local_path, cloud_path)` copies the local path to the cloud path |
| Items.DownloadTransferSwapped | sync_item.py:190-191 | as written, `download_file` reads from the local path: for different paths, its transfer is not the client's download |
| Items.DownloadTransfer | sync_item.py:190-191 | corrected `download_file`: data flows from the cloud path into the local path |
| Items.UploadTransfer | sync_item.py:193-194 | `upload_file` sends the local path to the cloud path |
| Items.TransfersOpposite | sync_item.py:190-194 | download and upload of one item move data in opposite directions |
| Items.ItemState.constructor | sync_item.py:21-26 | a fresh state: path "", md5 "", type empty, size 0 |
| Items.ItemState.FromDict | sync_item.py:40-59 | the state becomes `from_dict` of the old state (see `WithDict`, `WithDictKeys`) |
| Items.SyncItem.constructor | sync_item.py:123-131 | both states are fresh, holding the given local and cloud paths |
| Items.SyncItem.SetLocalPath | sync_item.py:93-95 | the local path reads back as the value set; nothing else changes |
| Items.SyncItem.SetCloudPath | sync_item.py:101-103 | the cloud path reads back as the value set; nothing else changes |
| Items.SyncItem.CalcLocalState | sync_item.py:142-164 | the local state becomes `LocalStateOf` the disk entry; the cloud state is untouched |
| Items.SyncItem.CalcCloudState | sync_item.py:166-169 | the cloud state takes the metadata, if any; the local state is untouched |
| Items.SyncItem.RemoveCloud | sync_item.py:172-174 | the cloud type becomes empty; the local state is untouched |
| Items.SyncItem.RemoveLocal | sync_item.py:176-187 | the local type follows `AfterRemoveLocal`; the cloud state is untouched |
| Items.SyncItem.DownloadFile | sync_item.py:190-191 | as written: the transfer is the swapped one |
| Items.SyncItem.UploadFile | sync_item.py:193-194 | the transfer goes from the local path to the cloud path |
| Items.SyncItem.CreateLocalDir | sync_item.py:197-204 | the local type becomes dir on success only; the cloud state is untouched |
| Items.SyncItem.CreateCloudDir | sync_item.py:206-213 | the cloud type becomes dir unless `create_dir` raised; the local state is untouched |
| Items.SyncItem.RemoveLocalDir | sync_item.py:216-224 | the local type becomes empty only for an existing folder removed successfully; the cloud state is untouched |
| Items.SyncItem.RemoveCloudDir | sync_item.py:226-228 | the cloud type becomes empty; the local state is untouched |
| Reconcile.NewPair | sync_project.py:173-176 | `create_item`: both states fresh; the paths are the roots for "" and the roots joined with the relative path otherwise |
| Reconcile.Touch | sync_project.py:255-256 | an existing item is left as it is; a new one is added at the end of the insertion order; the dictionary stays well formed |
| Reconcile.Put | sync_project.py:258 | replacing an item's value keeps the insertion order and well-formedness |
| Reconcile.AllCellsComplete | sync_project.py:140-156 | the matrix has a list for each of the nine (local, cloud) type pairs |
| Reconcile.CellOf | sync_project.py:228 | an item's cell is its (local type, cloud type) |
| Reconcile.NeedsUpdate | sync_project.py:226-228 | an item is classified when its local and cloud types differ or their digests differ; `Filed` and `SameTypeFiledOnDigest` state it |
| Reconcile.Filed | sync_project.py:226-228 | a cell receives exactly the items of that cell whose types or digests differ, in dictionary order, each once |
| Reconcile.ClassificationPartitions | sync_project.py:226-228 | an item that needs updating lands in its own cell, and no item lands in any other cell |
| Reconcile.SameTypeFiledOnDigest | sync_project.py:227 | an item of the same type on both sides is filed exactly when the digests differ |
| Reconcile.FiledPerPath | sync_project.py:226-228 | whether a path is filed depends on its own item only, not on the other items |
| Reconcile.Gather | sync_project.py:551-612 | the `*cell, *cell, ...` argument list holds exactly the paths of the listed cells |
| Reconcile.Classified | sync_project.py:226-228 | classifying keeps the matrix's cells |
| Reconcile.ClassifiedIsFiled | sync_project.py:226-228 | classifying appends to each of the nine cells exactly its `Filed` items and leaves any other key alone |
| Reconcile.GatherDistinct | sync_project.py:551-612 | a phase built from distinct cells whose lists are disjoint and duplicate-free hands each item over once |
| Reconcile.Transpose | sync_project.py:548-612 | transposing a cell swaps its local and cloud types |
| Reconcile.SaveCellsCharacterised | sync_project.py:587-612 | save removes in the cloud where the cloud has something of another type, creates cloud folders where the local side is a folder and the cloud's is not, and uploads every local file that needs it |
| Reconcile.LoadCellsCharacterised | sync_project.py:548-574 | load removes locally where the local side has something of another type, creates local folders where the cloud side is a folder and the local's is not, and downloads every cloud file that needs it |
| Reconcile.LoadIsTransposedSave | sync_project.py:542-612 | each load phase takes exactly the transposed cells of the corresponding save phase |
| Reconcile.PhaseCellsDistinct | sync_project.py:542-612 | no phase lists a cell twice |
| Reconcile.Written | sync_item.py:172-228 | the type each handler writes: removals empty, folder creations dir, transfers file |
| Reconcile.SaveConverges | sync_project.py:577-612 | for every cell, when the three save phases succeed, what the cloud ends holding (by `Written`: removals empty it, folder creations make a folder, uploads put a file) is of the local side's type |
| Reconcile.LoadConverges | sync_project.py:542-574 | for every cell, when the three load phases succeed, what the local side ends holding (by `Written`, with the corrected download) is of the cloud side's type |
| Reconcile.Apply | sync_item.py:172-228 | each handler touches one side only: removals empty it (remote removal always, local removal on success), folder creations make a folder on success, a failure leaves the item unchanged, transfers change no state |
| Reconcile.ApplyIdempotent | sync_item.py:172-228 | a handler applied twice to an item has the effect of applying it once |
| Reconcile.Applied | sync_project.py:615-630 | the executor applies the handler to every submitted item and leaves every other item unchanged |
| Reconcile.AppliedSameSet | sync_project.py:623 | the final states do not depend on the order of submission |
| Reconcile.AppliedStep | sync_project.py:623-627 | handling one more item updates that item only |
| Reconcile.PoolSize | sync_project.py:620 | `min(THREADS_COUNT, n)`: at most 16 and at most n, at least 1 for a non-empty phase |
| Reconcile.CloudPaths | sync_project.py:623 | the sort key of each item is its cloud path |
| Reconcile.AppliedKeepsCloudPaths | sync_project.py:615-630 | no handler changes a cloud path, so the submission order is the same for every phase |
| Reconcile.CloudOrderIsRelativeOrder | sync_project.py:623 | for items under the project's cloud root, cloud-path order is relative-path order |
| Reconcile.PlanApplied | sync_project.py:542-612 | running a plan keeps the items and their cloud paths |
| Reconcile.PlanAppliedThree | sync_project.py:542-612 | the phases run one after the other: each phase starts from the states the previous phase left |
| Reconcile.PlanAppliedStep | sync_project.py:542-612 | one more phase applies its handler to the states the earlier phases left |
| Reconcile.TransferOf | sync_item.py:190-194 | only uploads and downloads transfer data: upload local to cloud, download cloud to local |
| Reconcile.TransferOfApplied | sync_item.py:190-194 | handling an item does not change the transfer it makes |
| Reconcile.TransfersOf | sync_project.py:623 | a transfer phase makes one transfer per submitted item, in submission order, between that item's two paths |
| Reconcile.HandledIsApplied | sync_project.py:622-627 | handling the items one by one yields the applied states and the transfers of the phase |
| Ignore.ParseLine | sync_project.py:35-55 | a line gives no rule exactly when it is blank or a comment; otherwise the rule is well formed and negated exactly when the line starts with '!' |
| Ignore.ParseStripped | sync_project.py:38-55 | the same for a stripped line |
| Ignore.RulesOfLines | sync_project.py:34-55 | at most one rule per line, and every rule is well formed: directory iff the pattern ends in '/', absolute iff it has no `*`, `?` or `[` |
| Ignore.RulesOf | sync_project.py:28-55 | the rules of a `.syncignore` text: one per line that is neither blank nor a comment, in line order; `RulesOfLines` and `ParseRuleLine` state it |
| Ignore.ParseRuleLine | sync_project.py:42-55 | round trip: writing a well-formed rule as a line and parsing that line gives the rule back |
| Ignore.LiteralPatternMatchesItself | sync_project.py:87-88 | `fnmatch` with a pattern without wildcards matches exactly the pattern itself |
| Ignore.StarSuffix | sync_project.py:87-88 | `fnmatch` with `*` + suffix matches exactly the names that end with the suffix (`*` also crosses '/') |
| Ignore.Tokenize | sync_project.py:87-96 | how `fnmatch` reads a pattern: `*`, `?`, a closed bracket class (negated by a leading '!'), and every other character literal, an unclosed '[' included |
| Ignore.MatchTokens | sync_project.py:87-96 | the whole name matches the tokens in order; `*` matches any run, '/' included |
| Ignore.FnMatch | sync_project.py:87-96 | `fnmatch.fnmatch(name, pattern)` on POSIX, case-sensitive; `LiteralPatternMatchesItself` and `StarSuffix` state its behaviour |
| Ignore.LastMatchWins | sync_project.py:67-104 | the verdict is that of the last rule that matches: ignored exactly when that rule is not negated, and not ignored when no rule matches |
| Ignore.Ignored | sync_project.py:57-104 | `should_ignore`: never with no rules or an empty path, otherwise `Verdict` on the normalised path; `LastMatchWins` states it as an iff |
| Ignore.Verdict | sync_project.py:67-104 | the last rule that matches decides: ignored unless that rule is negated; nothing matching means not ignored |
| Ignore.RuleMatches | sync_project.py:71-96 | one rule on a normalised path: a folder rule never matches a file; an absolute rule matches the path and its subtree; any other rule uses the glob test |
| Ignore.AbsoluteCoversDescendants | sync_project.py:81-83 | a literal rule matches its own path and every path below it |
| Ignore.GlobCoversDescendants | sync_project.py:90-96 | a glob rule that matches a folder matches every path below that folder |
| Ignore.SingleRuleText | sync_project.py:34-55 | a file holding one plain line gives exactly one rule, with the flags the line implies |
| Ignore.OnePlainRule | sync_project.py:57-104 | a single plain rule ignores exactly its own path and the paths below it |
| Ignore.PlainRuleText | sync_project.py:28-104 | a `.syncignore` of one plain line ignores exactly that path and everything below it |
| Ignore.DefaultRulesIgnoreGit | sync_project.py:194 | the default `.syncignore` ignores exactly `.git` and everything below it |
| Ignore.NormalizeKeeps | sync_project.py:63 | a relative path with forward slashes is unchanged by normalisation |
| Ignore.Normalize | sync_project.py:63 | backslashes become '/', then leading '/' are dropped; `NormalizeKeeps` shows a normal path is unchanged |
| Ignore.DirectoryRuleSkipsFiles | sync_project.py:71-72 | the rule `build/` ignores no file path at all, but it does ignore the folder `build` |
| Ignore.SyncIgnore.constructor | sync_project.py:24-26 | the rules are those of the text |
| Ignore.SyncIgnore.ParseRules | sync_project.py:28-55 | the loop replaces the rules by exactly the rules of the new text; earlier rules are dropped |
| Ignore.SyncIgnore.ShouldIgnore | sync_project.py:57-104 | the loop over the rules computes the last-match verdict; no rules or an empty path give false |
| Ignore.RuleMatchesPath | sync_project.py:79-96 | the match test of one applicable rule: literal prefix test or glob test |
| Ignore.GlobMatchesPath | sync_project.py:87-96 | the glob test on the whole path, its basename and every leading prefix |
| Ignore.AnyPrefix | sync_project.py:91-96 | the prefix loop finds a match exactly when some leading prefix of the components passes the test |
| Scan.FoundOf | sync_item.py:144-158 | an entry on disk is found: dir exactly for a folder, a file with its digest and size |
| Scan.IgnoredByDecides | sync_project.py:252 | the skip test of the scans is `should_ignore` with the project's rules |
| Scan.VisitStep | sync_project.py:248-261 | walking `i + 1` entries walks the first `i`, then the subtree of entry `i` |
| Scan.Visit | sync_project.py:241-261 | the entries `_scan_local_items` records, in walk order: each entry that is not ignored, then the contents of a folder entry; the Visit lemmas state what it takes and skips |
| Scan.VisitSkipsIgnored | sync_project.py:252-253 | the local walk never visits an ignored path |
| Scan.VisitTakesVisibleEntries | sync_project.py:248-256 | every entry of the folder that is not ignored is visited |
| Scan.VisitEntersFolders | sync_project.py:260-261 | the walk descends into every folder it visits: each non-ignored child of a visited folder is visited |
| Scan.VisitEntryEnters | sync_project.py:260-261 | the same for the subtree of one entry |
| Scan.LocalUpsert | sync_project.py:255-258 | visiting a path adds it if new (at the end of the order) and makes its local state agree with the disk; its path and cloud state, and every other item, are kept |
| Scan.LocalUpserts | sync_project.py:248-261 | the dictionary after upserting the walked entries in order; the LocalUpserts lemmas state its keys, order and states |
| Scan.LocalUpsertsAppend | sync_project.py:248-261 | visiting two runs of paths is visiting the first and then the second |
| Scan.LocalUpsertsKeys | sync_project.py:255-256 | after the walk the dictionary holds exactly the earlier items and the visited paths |
| Scan.LocalUpsertsOrder | sync_project.py:255-256 | the walk keeps the earlier insertion order as a prefix and keeps the dictionary well formed |
| Scan.LocalUpsertsKeepCloud | sync_project.py:255-258 | the local walk never changes a cloud state; new items carry a fresh cloud state; items not visited are unchanged |
| Scan.LocalUpsertsAgree | sync_project.py:258 | a visited path's local state agrees with what the disk has there |
| Scan.CloudUpsert | sync_project.py:297-314 | a listed entry is added if new (at the end of the order); its cloud state takes the entry's metadata; its local state and every other item are kept |
| Scan.CloudUpsertKind | sync_project.py:301-314 | the cloud type becomes the type the listing reports |
| Scan.FileListing | sync_project.py:276-314 | `process_folder_items`: each entry that is not ignored is upserted, in listing order, and its cloud state takes the entry's metadata; the FileListing lemmas state the result |
| Scan.FileListingKeys | sync_project.py:285-314 | after processing a listing, the dictionary holds exactly the earlier items and the entries that are not ignored |
| Scan.FileListingOrder | sync_project.py:298-312 | processing a listing keeps the earlier insertion order as a prefix and keeps the dictionary well formed |
| Scan.FileListingKeepsLocal | sync_project.py:276-320 | the cloud scan never changes a local state; new items carry a fresh local state |
| Scan.FileListingElsewhere | sync_project.py:284-312 | entries at other paths leave what the dictionary holds at a path unchanged, or absent |
| Scan.FileListingStepElsewhere | sync_project.py:284-312 | the same for one entry |
| Scan.FileListingRecords | sync_project.py:297-312 | in a listing that names each child once, every entry that is not ignored leaves its path with the cloud state it had before (or a fresh one) updated by the entry's metadata, as `from_dict` does |
| Scan.FileListingRecordAt | sync_project.py:297-312 | the same, right after the entry itself was processed |
| Scan.FileListingKinds | sync_project.py:297-312 | so such an entry leaves its path with the cloud type the listing reports |
| Scan.Subfolders | sync_project.py:289-306 | the sub-folders found are exactly the folder entries that are not ignored |
| CloudScan.Unscanned | sync_project.py:317-320 | a sub-folder is queued exactly when it has not been scanned |
| CloudScan.WaveStart | sync_project.py:333 | the scan starts with only the root queued and nothing scanned |
| CloudScan.GrownStart | sync_project.py:333 | before any listing is processed the dictionary is as it was |
| CloudScan.FiledFolders | sync_project.py:322-362 | the dictionary once the listings of the scanned folders are processed one after another; a folder whose listing raised adds nothing |
| CloudScan.GrownStep | sync_project.py:276-320 | processing one more folder's listing keeps `Grown`: the dictionary is `FiledFolders` of the folders so far, it gained exactly the paths their listings give, appended to the order, and no local state changed |
| CloudScan.WaveProcess | sync_project.py:276-320 | processing a queued folder not yet scanned keeps the scan invariant: scanned folders are reachable and distinct, and what they list is queued or scanned |
| CloudScan.WaveSkip | sync_project.py:278-280 | a folder already scanned, or whose listing raised, is passed over without breaking the invariant |
| CloudScan.WaveInvStart | sync_project.py:332-334 | the wave invariant holds at the start |
| CloudScan.WaveInvProcess | sync_project.py:322-326 | scanning a batch's folder updates the scanned set, the dictionary and the queue as the invariant requires |
| CloudScan.WaveInvPass | sync_project.py:278-280 | passing over a folder keeps the invariant |
| CloudScan.WaveInvNext | sync_project.py:339-343 | the next wave is the queue; unless it is empty, the number of reachable folders not yet scanned strictly falls, so the waves end |
| CloudScan.WaveInvDone | sync_project.py:339-362 | when no folder is queued: each folder was scanned once, every reachable listed folder was scanned, the root was scanned exactly when it could be listed, and the dictionary is exactly the listings of the scanned folders processed in scan order (`FiledFolders`), so every cloud state is the one `FileListingRecords` gives |
| CloudScan.ScannedAreCandidates | sync_project.py:273-281 | only reachable folders are ever scanned |
| Cache.FilesOf | sync_project.py:396-400 | the cache's `files` holds exactly the items whose local type is file, each as `to_dict` of its local state |
| Cache.DirsOf | sync_project.py:402-403 | the cache's `dirs` holds exactly the items whose local type is dir, each as `to_dict` of its local state |
| Cache.SizeOf | sync_project.py:400 | the total size is not negative when no size is, and is 0 without files |
| Cache.CollectedPrefix | sync_project.py:396-403 | after any prefix of the loop, `files` and `dirs` hold exactly the files and the folders seen so far |
| Cache.CollectedAll | sync_project.py:396-403 | the loop over the whole dictionary collects `FilesOf` and `DirsOf` |
| Cache.CacheOf | sync_project.py:367-408 | files and folders are disjoint, `total_files` and `total_directories` are their counts, and the roots are recorded |
| Cache.Diff | sync_project.py:484-501 | new and removed files and folders are the set differences in both directions; changed files are the files on both sides whose digests differ |
| Cache.Md5Of | sync_project.py:500 | `info.get('md5', '')`: the digest, or "" when it is missing |
| Cache.InSyncIff | sync_project.py:504 | the project is reported in sync exactly when cache and disk list the same files and the same folders, with the same digests |
| Cache.InSync | sync_project.py:504 | `not any([...])`: all five reported sets are empty; `InSyncIff` says when |
| Cache.OwnCacheInSync | sync_project.py:367-506 | the cache describes exactly the dictionary it was built from: compared with that dictionary it reports no change (a later scan also sees `.project_cache.json`, see `Project.CacheFileReportedAsNew`) |
| Cache.EditedFileReported | sync_project.py:496-501 | a file whose digest changed after the cache was written is reported as changed |
| Project.Lookup | sync_project.py:189-197 | the entry found under a name is one with that name, and none is found when no entry has it |
| Project.LookupAppended | sync_project.py:192-195 | the `.syncignore` written when it is missing is found afterwards |
| Project.Prepare | sync_project.py:181-206 | `FileExistsError` exactly when the root is a file or its `.syncignore` is a folder; otherwise ready. An existing root with a `.syncignore` file is walked as it is, with that file's own text as the rules. An existing root without one gains a `.syncignore` holding the default rules. A missing root becomes a folder holding only that file |
| Project.CacheFileNotIgnored | sync_project.py:194 | the default `.syncignore` does not ignore `.project_cache.json` |
| Project.CacheFileReportedAsNew | sync_project.py:411-501 | `set_cache` writes `.project_cache.json` into the scanned folder: a root holding it, scanned under the default rules, has it as a local file, so a cache that does not list it reports it as a new file |
| Project.LocalScanned | sync_project.py:179-213 | the local scan keeps the dictionary well formed and only adds items |
| Project.GrownConsistent | sync_project.py:226-228 | a dictionary that only gained items keeps every filed path an item |
| Project.EveryCellFiled | sync_project.py:140-156 | a consistent matrix has a list for every cell |
| Project.SyncProject.constructor | sync_project.py:120-156 | the roots are base/category/project and `app:`/category/project; no items; all nine cells empty; no rules yet |
| Project.SyncProject.ScanLocalItems | sync_project.py:241-261 | the recursive scan upserts exactly the walk of the folder, in walk order; matrix and cache are untouched |
| Project.SyncProject.ScanEntry | sync_project.py:248-261 | one entry: upsert it unless ignored, and recurse into it when it is a folder |
| Project.SyncProject.LocalScan | sync_project.py:179-213 | `local_scan`: preparation as `Prepare`; when ready, the rules are those of the `.syncignore` text and the dictionary is the walk of the root; on error nothing changes |
| Project.SyncProject.ProcessFolder | sync_project.py:276-320 | processing a listing upserts its non-ignored entries and returns its non-ignored sub-folders |
| Project.SyncProject.ProcessEntry | sync_project.py:285-314 | one listed entry: skipped when ignored, otherwise upserted, and returned as a sub-folder when it is one |
| Project.SyncProject.ScanWave | sync_project.py:339-362 | one wave keeps the scan invariant (the dictionary is the processed listings filed in order), and unless it queues nothing it strictly lowers the number of unscanned reachable folders |
| Project.SyncProject.ScanCloudItems | sync_project.py:264-364 | the wave loop scans each folder at most once, only folders that could be listed, every folder reachable from the root through non-ignored folders, and leaves the dictionary equal to their listings processed in scan order (`FiledFolders`), cloud states included |
| Project.SyncProject.CloudScan | sync_project.py:217-228 | `cloud_scan`: the wave scan with the project's rules, leaving the dictionary equal to the processed listings (`Grown`), then the classification of every item into the matrix |
| Project.SyncProject.Classify | sync_project.py:226-228 | the matrix gains exactly the `Filed` items of each cell; the dictionary is untouched |
| Project.SyncProject.RunPhase | sync_project.py:615-630 | `multythread_operation`: nothing on empty input; otherwise `min(16, n)` workers, items submitted in ascending cloud-path order, every item handled exactly once, other items untouched |
| Project.SyncProject.SyncSave | sync_project.py:577-612 | `sync_save`: local scan; the cache of the scanned dictionary; cloud scan and classification; then the three save phases in order, uploading the gathered files in cloud-path order |
| Project.SyncProject.SyncLoad | sync_project.py:542-574 | `sync_load`: local scan, cloud scan and classification, then the three load phases in order; the cache is untouched |
| Project.SyncProject.RunPlan | sync_project.py:542-612 | the three phases of a plan run one after the other, each on the states the previous one left |
| Project.SyncProject.RunHandler | sync_project.py:622-627 | the submission loop applies the handler to each submitted item and collects the transfers in order |
| Project.SyncProject.HandleOne | sync_project.py:623 | handling one item updates that item only and gives its transfer |
| Project.SyncProject.CollectLocal | sync_project.py:396-403 | the `set_cache` loop yields exactly `FilesOf`, `DirsOf` and the total size |
| Project.SyncProject.SetCache | sync_project.py:367-417 | the cache file becomes the cache of the dictionary when the write succeeds, and is unchanged otherwise |
| Project.SyncProject.ShowStatus | sync_project.py:440-538 | no cache: no status, nothing scanned; a scan that fails: an error; otherwise the fresh local scan compared with the cache |
| Project.Collect | sync_project.py:474-481 | the `show_status` loop collects exactly the files, the folders and the total size of the scanned dictionary |
| Project.ChangedFiles | sync_project.py:496-501 | the files on both sides whose digests differ, a missing digest reading as "" |
| Base.LocalFolders | sync_base.py:26-43 | the sub-folders of a local folder, ascending and each once; nothing when the folder does not exist |
| Base.LocalSet | sync_base.py:35-43 | the names of exactly the entries that are folders; nothing for a missing folder |
| Base.CloudFolders | sync_base.py:45-52 | exactly the names of the listed items of type `dir` |
| Base.CloudListing | sync_base.py:46-51 | a failed listing (`None`) reads as an empty one |
| Base.CloudSet | sync_base.py:45-52 | the set of cloud folder names |
| Base.LocalFolderSet | sync_base.py:35-43 | the local listing loop collects exactly the folder names |
| Base.ProjectNames | sync_base.py:129-131 | `sorted(local | cloud)` of a category's projects |
| Base.CategoryNames | sync_base.py:136-138 | `sorted(local | cloud)` of the categories |
| Base.BasePrefix | sync_base.py:63 | the base with its trailing '/' stripped and put back: it ends with '/' |
| Base.ResolveContext | sync_base.py:54-80 | outside exactly when the cwd is not below the base prefix; category and project names hold no '/' |
| Base.RelUnder | sync_base.py:67 | `os.path.relpath` of a path below the base: what follows the prefix, or "." when nothing does; never empty |
| Base.ResolvedCategory | sync_base.py:76-78 | at category level, the category is the whole rest of the path |
| Base.ResolvedProject | sync_base.py:72-75 | at project level, the cwd lies in base/category/project |
| Base.ResolvedLevels | sync_base.py:67-78 | below the base: a rest of one component is its category, a rest with '/' is a project, and an empty rest is the base |
| Base.BaseItselfIsOutside | sync_base.py:63 | a cwd equal to a base without a trailing '/' counts as outside |
| Base.CategoryFolderResolves | sync_base.py:76-78 | run from `base/category`, the context is that category |
| Base.ProjectFolderResolves | sync_base.py:72-75 | run from anywhere inside `base/category/project`, the context is that project |
| Base.Tagged | sync_base.py:131-132 | each project paired with its category, in order |
| Base.AppendTagged | sync_base.py:131-132 | the append loop adds the tagged projects of one category |
| Base.IterSelected | sync_base.py:108-145 | `_iter_selected_projects` returns exactly the selection of its selector |
| Base.Selected | sync_base.py:108-145 | `_iter_selected_projects`: the named pair for `single` and `category_one`; the sorted projects of the category for `category_all`; every category's sorted projects, categories sorted, for `all_all`; nothing otherwise (an unknown scope or a missing name) |
| Base.AllBlocks | sync_base.py:138-142 | the nested loops append every category's sorted projects, category by category |
| Base.TaggedMembers | sync_base.py:131-132 | the pairs are exactly (category, p) for the listed p |
| Base.BlocksMembers | sync_base.py:138-142 | the `all_all` pairs are exactly those of a listed category with one of its projects |
| Base.TaggedAscending | sync_base.py:131-132 | ascending projects give ascending pairs |
| Base.BlocksAscending | sync_base.py:138-142 | ascending categories with ascending projects give pairs in ascending (category, project) order |
| Base.CategoryAllOrdered | sync_base.py:128-133 | `category_all` selects exactly the category's projects, local or cloud, in strictly ascending order |
| Base.AllAllMembers | sync_base.py:135-143 | `all_all` selects exactly every project of every category, local or cloud |
| Base.AllAllAscending | sync_base.py:135-143 | `all_all` lists the pairs in strictly ascending (category, project) order, so each pair once |
| Base.NothingSelected | sync_base.py:117-145 | an unknown scope, or a missing or empty name the scope needs, selects nothing |
| Base.SelectorFor | sync_base.py:159-190 | usage error exactly for shapes none of the three forms accepts; project level without arguments selects that project; category level with one argument selects `all` or the named project |
| Base.GlobalFormsAnywhere | sync_base.py:175-186 | two arguments work alike from any folder: `all all`, `X all`, `X Y`, and `all Y` is refused |
| Base.SelectTargets | sync_base.py:159-190 | `_select_targets`: usage error exactly when no selector applies, otherwise the selection of that selector |
| Base.ProjectFolderTargetsItself | sync_base.py:166-167 | run from a project folder without arguments, the only target is that project |
| Base.Mark | sync_base.py:99-104 | the mark lists `local` and `cloud` as the project is present on each side |
| Base.ListedProjectsAreMarked | sync_base.py:91-104 | every listed project gets `local`, `cloud` or `local/cloud`; the dash is never printed |
| Base.MarkedRows | sync_base.py:98-105 | one row per project |
| Base.CategoryRows | sync_base.py:91-105 | the rows of one category |
| Base.MarkRows | sync_base.py:98-105 | the mark loop builds the rows of the listed projects in order |
| Base.Listing | sync_base.py:83-105 | one block per category, in order |
| Base.ListAll | sync_base.py:83-105 | `cmd_list` lists the sorted categories, each with its rows |
| Base.ListCategories | sync_base.py:90-105 | the category loop builds one block per category |
| Base.MarkedRowsMarked | sync_base.py:98-104 | every row is a listed project with a real mark |
| Base.CategoryListingMarked | sync_base.py:90-105 | a category's rows are its sorted projects, each with a real mark |
| Base.Runnable | sync_base.py:248-261 | the targets that run are those of `targets` whose project folder exists (for `save` and `status`) or all of them (for the other commands), in target order |
| Base.RunnableTargets | sync_base.py:248-261 | the loop of `main` runs exactly `Runnable`: the targets in order, `save` and `status` skipping those whose project folder is missing |

## Left out

- Network, disk, hashing and time. HTTP requests, `time.sleep`, timeouts, file reads and
  writes, `mkdir`/`rmtree`/`unlink`, and `stat` become inputs:
  - the outcome sequences of requests;
  - the disk tree;
  - the success sets of the operations.
  MD5 is a field of a file node. `datetime` and the `modified` field are not modelled.
- Threads, locks and completion order. `ThreadPoolExecutor` and `as_completed`
  (sync_project.py:269-360, 622-630) run as sequential loops in submission order. The
  progress counters and exceptions raised inside worker threads are not modelled.
- All `print` output, the usage text, the `.env` loading, and the `__main__` blocks of
  sync_project.py and yandex_disk_client.py.
- `ItemState.size_str`: floating-point formatting.
- The JSON text of `.project_cache.json`, its `last_updated` timestamp and its
  `cache_version`.
- The random jitter of `_calculate_backoff_time`: a sleep is its integer base delay, or the
  429 wait. Transport.WaitAfter states only that base.
- `upload` and `download` internals: the `href` request and the upload's 409 parent
  creation and retry. This also covers the attribute read on a `None` response at
  yandex_disk_client.py:365-366. `SyncItem` ignores their booleans and they change no
  state, so the model keeps only the direction of each transfer.
- Project.SyncProject.RunPlan: one set `ok` says which paths' operations succeed. It applies
  to all three phases of a run, not to each phase separately.
- Project.SyncProject.ShowStatus: `get_cache` that fails to read, and an empty cache
  dictionary (which `if not cache` treats as missing), are both the absent cache
  `None`. The model does not tell them apart from a missing file.
- Project.Prepare: a `.syncignore` that exists but cannot be read (which gives no rules), and
  a failing `mkdir` of the project root, are not modelled.
- Project.SyncProject.ScanCloudItems: a listing that raises is a folder missing from the
  `listing` map. A failed or non-200 page that `list` turns into fewer items is already
  the listing it returns.
- `multythread_operation`'s `reverse` parameter: no caller passes it.
- Project.SyncProject.RunPhase: items stand for `SyncItem` objects by path. The dictionary holds
  their values, so aliasing between `SyncItem` objects is not modelled. Each
  `Items.SyncItem` method is specified by the same state transition the executor applies;
  only the direction of `download_file`'s transfer differs (the next lines).
- Reconcile.TransferOf: its download half is the corrected `download_file`
  (`Items.DownloadTransfer`, cloud path to local path). As written, sync_item.py:191 passes the
  two paths in swapped order (`Items.DownloadTransferSwapped`, `Items.SyncItem.DownloadFile`;
  first row of the findings below).
- Reconcile.TransfersOf: every download of a load phase is the corrected transfer, for the same
  reason.
- Project.SyncProject.HandleOne: its download transfer is the corrected one, unlike the as-written
  `Items.SyncItem.DownloadFile`.
- Project.SyncProject.SyncLoad: its `downloads` go from the cloud path to the local path, the
  corrected direction; the program as written asks for the local path's name in the cloud and
  writes under the cloud path's name.
- Reconcile.LoadConverges: the file it places on the local side is placed there only by the
  corrected download. Uploads and downloads change no recorded state (`Reconcile.Apply`), so
  this lemma and `Reconcile.SaveConverges` speak of what the written side holds, not of the
  item states.
- Transport.ReadRetryAfter: `int()` also accepts underscores between digits (`1_0`) and
  non-ASCII decimal digits. The model refuses those, so such a header gives the wait 1
  instead of its number.
- Cache.OwnCacheInSync: the program never compares a cache with the dictionary it was built
  from; `show_status` compares it with a fresh scan. That scan also finds the
  `.project_cache.json` that `set_cache` wrote, and the default rules do not ignore it, so
  after a save the status reports that file as new, or as changed after later saves
  (`Project.CacheFileReportedAsNew`). The cache file's own contents are not modelled as disk
  contents: `cacheFile` is kept apart from the disk tree.
- Order.SortBy: stability is not stated. Cloud paths of different items are different, so
  no two items share a key.
- Ignore.FnMatch: bracket classes `[...]` and `[!...]` are tokenised left to right, taking the
  first `]` after the opening one (an immediate `]` is a member). This follows
  `fnmatch.translate`, but the model is not proved equal to it. Case is significant.
- Base.ResolveContext: `os.path.abspath` normalisation is not modelled. The cwd and the base
  are taken as absolute, normalised paths with '/' as separator.
- Base.LocalFolders: a base path that is a file, rather than a folder, is not modelled.
- Command dispatch in `main`: `lower()`, the `list` command, unknown commands, the exits and
  `_run_for_project` are not modelled. They only choose which modelled operation runs.
- Transport.CreateDir: the recursion is driven by a finite transcript, and a request past
  its end gets no response. An unbounded run therefore ends as `Raised`, which stands for
  the `AttributeError` on a missing response (yandex_disk_client.py:303-305).

## Findings

| source | as written | input that shows it | evidently intended | confidence | as-written member | corrected member |
|---|---|---|---|---|---|---|
| sync_item.py:190-191 | `download_file` passes the cloud path as the client's `local_path` argument and the local path as `cloud_path` (the client's signature is at yandex_disk_client.py:330) | any item whose two paths differ, e.g. local `/base/c/p/a.txt` and cloud `app:/c/p/a.txt`: the download is requested for the local path and written to the cloud path | fetch the cloud file into the local path | not executed | Items.DownloadTransferSwapped | Items.DownloadTransfer |
| yandex_disk_client.py:310-314 | on 409 with the folder not found, `create_dir` creates `cloud_path.parent` first, even when the path is `.`, its own parent | a server that answers every PUT with 409 and every `exists` with 404: the recursion reaches `.` and asks for `.` again and again (n such rounds give n + 1 PUTs of `.`) | stop at a path that is its own parent, which bounds the PUTs by `2·depth + 1` | not executed | Transport.RootRecursionUnbounded | Transport.CreateDirBounded |
