/**
 * `SyncBase`: the command line over the whole base. It works out where it was started
 * (outside the base, at the base, in a category folder or in a project folder), turns
 * that place and the arguments into the `(category, project)` targets, marks every
 * project `list` shows as local, cloud or both, and skips `save` and `status` for
 * projects missing on disk. The disk under the base and the answers of the cloud
 * client's `list` are given as values.
 */
module Base {
  import opened Wrappers
  import opened Strings
  import opened Order

  /** The folders under the base that exist, by path relative to the base (the base itself
   *  is ""); each maps the names of its entries to whether the entry is a folder. */
  type Disk = map<string, map<string, bool>>

  /** A resource in the answer of the cloud `list`: its `name` and its `type`. */
  datatype CloudItem = CloudItem(name: string, kind: string)

  /** The answer of `list` for each cloud path; a path missing here is one the client
   *  answered `None` for, which `or []` turns into an empty list. */
  type Cloud = map<string, seq<CloudItem>>

  /** The cloud folder that holds the categories, `app:/`. */
  const CloudTop := "app:/"

  // ------------------------------------------------------------------ listings

  /** `_get_local_categories` (folder "") and `_get_local_projects(category)` (folder
   *  `category`): the names of the sub-folders, in ascending order; nothing when the
   *  folder does not exist. */
  method LocalFolders(disk: Disk, folder: string) returns (names: seq<string>)
    ensures names == SortedNames(LocalSet(disk, folder))
    ensures Ascending(names) && forall n :: n in names <==> n in LocalSet(disk, folder)
  {
    names := SortedSet(LocalSet(disk, folder));
  }

  /** The names of the sub-folders of an existing folder. */
  function LocalSet(disk: Disk, folder: string): (r: set<string>)
    ensures folder !in disk ==> r == {}
    ensures folder in disk ==> forall n :: n in r <==> n in disk[folder] && disk[folder][n]
  {
    if folder in disk then set n | n in disk[folder] && disk[folder][n] else {}
  }

  /** `[item.get('name') for item in items if item.get('type') == 'dir']`. */
  function CloudFolders(items: seq<CloudItem>): (r: seq<string>)
    ensures |r| <= |items|
    ensures forall n :: n in r <==> exists it :: it in items && it.kind == "dir" && it.name == n
  {
    if items == [] then []
    else
      var rest := CloudFolders(items[1..]);
      assert forall it :: it in items <==> it == items[0] || it in items[1..];
      (if items[0].kind == "dir" then [items[0].name] else []) + rest
  }

  /** The cloud listing keeps the order the client returned: listing two runs of items one
   *  after the other lists the folders of each, one after the other. */
  lemma {:induction false} CloudFoldersAppend(a: seq<CloudItem>, b: seq<CloudItem>)
    ensures CloudFolders(a + b) == CloudFolders(a) + CloudFolders(b)
    decreases |a|
  {
    if a == [] {
      assert a + b == b;
    } else {
      assert (a + b)[0] == a[0];
      assert (a + b)[1..] == a[1..] + b;
      CloudFoldersAppend(a[1..], b);
      var head := if a[0].kind == "dir" then [a[0].name] else [];
      assert CloudFolders(a + b) == head + CloudFolders(a[1..] + b);
      assert CloudFolders(a) == head + CloudFolders(a[1..]);
      assert head + (CloudFolders(a[1..]) + CloudFolders(b)) == (head + CloudFolders(a[1..])) + CloudFolders(b);
    }
  }

  /** `_get_cloud_categories` (path `app:/`) and `_get_cloud_projects(category)` (path
   *  `app:/<category>`). */
  function CloudListing(cloud: Cloud, path: string): (r: seq<string>)
    ensures path !in cloud ==> r == []
  {
    if path in cloud then CloudFolders(cloud[path]) else []
  }

  /** The names a cloud listing holds. */
  function CloudSet(cloud: Cloud, path: string): (r: set<string>)
    ensures forall n :: n in r <==> n in CloudListing(cloud, path)
  {
    set n | n in CloudListing(cloud, path)
  }

  /** The categories on either side. */
  function CategoriesOf(disk: Disk, cloud: Cloud): set<string>
  {
    LocalSet(disk, "") + CloudSet(cloud, CloudTop)
  }

  /** The projects of a category on either side. */
  function ProjectsOf(disk: Disk, cloud: Cloud, category: string): set<string>
  {
    LocalSet(disk, category) + CloudSet(cloud, CloudTop + category)
  }

  /** `set(self._get_local_...())`: the local listing as a set. */
  method LocalFolderSet(disk: Disk, folder: string) returns (names: set<string>)
    ensures names == LocalSet(disk, folder)
  {
    var listed := LocalFolders(disk, folder);
    names := set n | n in listed;
  }

  /** `sorted(local | cloud)` for the projects of a category. */
  method ProjectNames(disk: Disk, cloud: Cloud, category: string) returns (names: seq<string>)
    ensures names == SortedNames(ProjectsOf(disk, cloud, category))
  {
    var local := LocalFolderSet(disk, category);
    var remote := CloudSet(cloud, CloudTop + category);
    names := SortedSet(local + remote);
  }

  /** `sorted(local_c | cloud_c)` for the categories. */
  method CategoryNames(disk: Disk, cloud: Cloud) returns (names: seq<string>)
    ensures names == SortedNames(CategoriesOf(disk, cloud))
  {
    var local := LocalFolderSet(disk, "");
    var remote := CloudSet(cloud, CloudTop);
    names := SortedSet(local + remote);
  }

  // ------------------------------------------------------------------ context

  /** Where the command was started. */
  datatype Context = Outside | AtBase | InCategory(category: string) | InProject(category: string, project: string)

  /** `base_path_abs.rstrip(os.sep) + os.sep`. */
  function BasePrefix(base: string): (r: string)
    ensures |r| > 0 && r[|r| - 1] == '/'
  {
    RStripChar(base, '/') + "/"
  }

  /** `os.path.relpath(cwd, base)` for a `cwd` below the base: what follows the prefix,
   *  or "." for the prefix itself. */
  function RelUnder(cwd: string, prefix: string): (r: string)
    requires StartsWith(cwd, prefix)
    ensures r != ""
  {
    if cwd[|prefix|..] == "" then "." else cwd[|prefix|..]
  }

  /** `_resolve_context(cwd)`, for `cwd` and `base` as `os.path.abspath` returns them:
   *  outside unless `cwd` is below the base with its trailing '/' stripped and put back;
   *  below it, the first two components of the relative path name the category and the
   *  project. */
  function ResolveContext(cwd: string, base: string): (r: Context)
    ensures r.Outside? <==> !StartsWith(cwd, BasePrefix(base))
    ensures r.InCategory? ==> '/' !in r.category
    ensures r.InProject? ==> '/' !in r.category && '/' !in r.project
  {
    var prefix := BasePrefix(base);
    if !StartsWith(cwd, prefix) then Outside
    else
      var parts := Split(RelUnder(cwd, prefix), '/');
      if |parts| == 1 && parts[0] == "." then AtBase
      else if |parts| >= 2 then InProject(parts[0], parts[1])
      else if |parts| == 1 then InCategory(parts[0])
      else Outside
  }

  /** The category of a category folder is the whole rest of the path. */
  lemma ResolvedCategory(cwd: string, base: string)
    requires ResolveContext(cwd, base).InCategory?
    ensures cwd == BasePrefix(base) + ResolveContext(cwd, base).category
  {
    var prefix := BasePrefix(base);
    var rel := RelUnder(cwd, prefix);
    JoinSplit(rel, '/');
    assert cwd == prefix + cwd[|prefix|..];
  }

  /** Below a project folder, the path starts with the category and the project. */
  lemma ResolvedProject(cwd: string, base: string)
    requires ResolveContext(cwd, base).InProject?
    ensures var r := ResolveContext(cwd, base);
      StartsWith(cwd, BasePrefix(base) + r.category + "/" + r.project)
  {
    var prefix := BasePrefix(base);
    var rest := cwd[|prefix|..];
    ResolvedLevels(cwd, base);
    assert rest != "";
    assert RelUnder(cwd, prefix) == rest;
    var parts := Split(rest, '/');
    assert ResolveContext(cwd, base) == InProject(parts[0], parts[1]);
    var x := parts[0] + "/" + parts[1];
    SplitStarts(rest, '/');
    assert cwd == prefix + rest;
    PrefixExtends(prefix, rest, x);
    assert prefix + x == prefix + parts[0] + "/" + parts[1];
  }

  /** A string that splits into two pieces or more starts with the first two and the
   *  separator between them. */
  lemma SplitStarts(s: string, sep: char)
    requires |Split(s, sep)| >= 2
    ensures StartsWith(s, Split(s, sep)[0] + [sep] + Split(s, sep)[1])
  {
    JoinSplit(s, sep);
    JoinPrefix(Split(s, sep), sep);
  }

  /** Putting the same prefix in front keeps one string a prefix of another. */
  lemma PrefixExtends(prefix: string, s: string, x: string)
    requires StartsWith(s, x)
    ensures StartsWith(prefix + s, prefix + x)
  {
    assert (prefix + s)[..|prefix| + |x|] == prefix + s[..|x|];
  }

  /** A project folder is at least two components below the base, a category folder one. */
  lemma ResolvedLevels(cwd: string, base: string)
    requires StartsWith(cwd, BasePrefix(base))
    ensures var rest := cwd[|BasePrefix(base)|..];
      && (rest != "" && rest != "." && '/' !in rest ==> ResolveContext(cwd, base) == InCategory(rest))
      && ('/' in rest ==> ResolveContext(cwd, base).InProject?)
      && (rest == "" || rest == "." ==> ResolveContext(cwd, base) == AtBase)
  {
    var rest := cwd[|BasePrefix(base)|..];
    var rel := RelUnder(cwd, BasePrefix(base));
    if '/' !in rel {
      SplitWithoutSeparator(rel, '/');
    } else {
      JoinSplit(rel, '/');
    }
  }

  /** The first two pieces of a join, with the separator between them, start it. */
  lemma JoinPrefix(parts: seq<string>, sep: char)
    requires |parts| >= 2
    ensures StartsWith(Join(parts, sep), parts[0] + [sep] + parts[1])
  {
    var rest := Join(parts[1..], sep);
    assert StartsWith(rest, parts[1]) by {
      if |parts| > 2 {
        assert rest == parts[1] + [sep] + Join(parts[2..], sep) by {
          assert parts[1..][1..] == parts[2..];
        }
      }
    }
    assert Join(parts, sep) == parts[0] + [sep] + rest;
    assert (parts[0] + [sep] + rest)[..|parts[0]| + 1 + |parts[1]|] == parts[0] + [sep] + parts[1];
  }

  /** Run from a non-root base itself, the command is outside the base. */
  lemma BaseItselfIsOutside(base: string)
    requires base != "" && base[|base| - 1] != '/'
    ensures ResolveContext(base, base) == Outside
  {
  }

  /** A category folder directly under a normalised base resolves to that category. */
  lemma CategoryFolderResolves(base: string, category: string)
    requires base == "" || base[|base| - 1] != '/'
    requires category != "" && category != "." && '/' !in category
    ensures ResolveContext(base + "/" + category, base) == InCategory(category)
  {
    assert RStripChar(base, '/') == base;
    var cwd := base + "/" + category;
    assert StartsWith(cwd, BasePrefix(base));
    assert cwd[|BasePrefix(base)|..] == category;
    ResolvedLevels(cwd, base);
  }

  /** The components of `category/project<rest>`, for a `rest` that is empty or starts a
   *  new component. */
  lemma SplitProjectPath(category: string, project: string, rest: string)
    requires '/' !in category && '/' !in project
    requires rest == "" || rest[0] == '/'
    ensures var parts := Split(category + "/" + project + rest, '/');
      |parts| >= 2 && parts[0] == category && parts[1] == project
  {
    SplitWithoutSeparator(category, '/');
    SplitWithoutSeparator(project, '/');
    if rest == "" {
      assert category + "/" + project + rest == category + ['/'] + project;
      SplitAround(category, project, '/');
    } else {
      assert category + "/" + project + rest == category + ['/'] + (project + ['/'] + rest[1..]);
      SplitAround(category, project + ['/'] + rest[1..], '/');
      SplitAround(project, rest[1..], '/');
    }
  }

  /** A project folder, or anything inside it, resolves to that category and project. */
  lemma ProjectFolderResolves(base: string, category: string, project: string, rest: string)
    requires base == "" || base[|base| - 1] != '/'
    requires category != "" && '/' !in category && '/' !in project
    requires rest == "" || rest[0] == '/'
    ensures ResolveContext(base + "/" + category + "/" + project + rest, base) == InProject(category, project)
  {
    assert RStripChar(base, '/') == base;
    var cwd := base + "/" + category + "/" + project + rest;
    var prefix := BasePrefix(base);
    assert StartsWith(cwd, prefix);
    assert cwd[|prefix|..] == category + "/" + project + rest;
    SplitProjectPath(category, project, rest);
  }

  // ------------------------------------------------------------------ selection

  /** The scope of a selector: one of the four `_iter_selected_projects` knows, 'single',
   *  'category_one', 'category_all' and 'all_all', or any other string. */
  datatype Scope = Single | CategoryOne | CategoryAll | AllAll | Unknown(name: string)

  /** `(scope, category, project)`; a missing part is `None`. */
  datatype Selector = Selector(scope: Scope, category: Option<string>, project: Option<string>)

  /** Python truthiness of an optional name: present and non-empty. */
  predicate Truthy(o: Option<string>)
  {
    o.Some? && o.value != ""
  }

  /** The projects of `names` paired with their category, in order. */
  function Tagged(category: string, names: seq<string>): (r: seq<(string, string)>)
    ensures |r| == |names|
    ensures forall k :: 0 <= k < |r| ==> r[k] == (category, names[k])
  {
    if names == [] then []
    else Tagged(category, names[..|names| - 1]) + [(category, names[|names| - 1])]
  }

  /** The `all_all` selection after the first `n` categories of `cats`: the names
   *  `projects` gives each category, one category after the other. */
  function Blocks(cats: seq<string>, n: nat, projects: string -> seq<string>): seq<(string, string)>
    requires n <= |cats|
  {
    if n == 0 then []
    else Blocks(cats, n - 1, projects) + Tagged(cats[n - 1], projects(cats[n - 1]))
  }

  /** `sorted(local | cloud)` for each category. */
  ghost function SortedProjects(disk: Disk, cloud: Cloud): string -> seq<string>
  {
    c => SortedNames(ProjectsOf(disk, cloud, c))
  }

  /** What `_iter_selected_projects` returns for a selector. */
  ghost function Selected(disk: Disk, cloud: Cloud, sel: Selector): seq<(string, string)>
  {
    if sel.scope.Single? && Truthy(sel.category) && Truthy(sel.project) then
      [(sel.category.value, sel.project.value)]
    else if sel.scope.CategoryOne? && Truthy(sel.category) && Truthy(sel.project) then
      [(sel.category.value, sel.project.value)]
    else if sel.scope.CategoryAll? && Truthy(sel.category) then
      Tagged(sel.category.value, SortedNames(ProjectsOf(disk, cloud, sel.category.value)))
    else if sel.scope.AllAll? then
      var cats := SortedNames(CategoriesOf(disk, cloud));
      Blocks(cats, |cats|, SortedProjects(disk, cloud))
    else []
  }

  /** `selected.append((category, proj))` for every name in turn. */
  method AppendTagged(selected: seq<(string, string)>, category: string, names: seq<string>) returns (r: seq<(string, string)>)
    ensures r == selected + Tagged(category, names)
  {
    r := selected;
    var i := 0;
    while i < |names|
      invariant 0 <= i <= |names|
      invariant r == selected + Tagged(category, names[..i])
      decreases |names| - i
    {
      assert names[..i + 1][..i] == names[..i];
      r := r + [(category, names[i])];
      i := i + 1;
    }
    assert names[..i] == names;
  }

  /** `_iter_selected_projects(selector)`. */
  method IterSelected(disk: Disk, cloud: Cloud, sel: Selector) returns (selected: seq<(string, string)>)
    ensures selected == Selected(disk, cloud, sel)
  {
    selected := [];
    if sel.scope.Single? && Truthy(sel.category) && Truthy(sel.project) {
      selected := selected + [(sel.category.value, sel.project.value)];
      return;
    }
    if sel.scope.CategoryOne? && Truthy(sel.category) && Truthy(sel.project) {
      selected := selected + [(sel.category.value, sel.project.value)];
      return;
    }
    if sel.scope.CategoryAll? && Truthy(sel.category) {
      var names := ProjectNames(disk, cloud, sel.category.value);
      selected := AppendTagged(selected, sel.category.value, names);
      return;
    }
    if sel.scope.AllAll? {
      var cats := CategoryNames(disk, cloud);
      selected := AllBlocks(disk, cloud, cats);
    }
  }

  /** The `all_all` loop over the categories `cats`, each followed by its projects. */
  method AllBlocks(disk: Disk, cloud: Cloud, cats: seq<string>) returns (selected: seq<(string, string)>)
    ensures selected == Blocks(cats, |cats|, SortedProjects(disk, cloud))
  {
    selected := [];
    var i := 0;
    while i < |cats|
      invariant 0 <= i <= |cats|
      invariant selected == Blocks(cats, i, SortedProjects(disk, cloud))
      decreases |cats| - i
    {
      var names := ProjectNames(disk, cloud, cats[i]);
      selected := AppendTagged(selected, cats[i], names);
      i := i + 1;
    }
  }

  /** The order `all_all` follows: by category, then by project. */
  predicate PairLess(a: (string, string), b: (string, string))
  {
    StrLess(a.0, b.0) || (a.0 == b.0 && StrLess(a.1, b.1))
  }

  /** A category's block holds exactly that category paired with each of its names. */
  lemma TaggedMembers(category: string, names: seq<string>)
    ensures forall c, p :: (c, p) in Tagged(category, names) <==> c == category && p in names
  {
    var r := Tagged(category, names);
    forall c, p ensures (c, p) in r <==> c == category && p in names {
      if (c, p) in r {
        var k :| 0 <= k < |r| && r[k] == (c, p);
      }
      if c == category && p in names {
        var k :| 0 <= k < |names| && names[k] == p;
        assert r[k] == (c, p);
      }
    }
  }

  /** After the first `n` categories of `cats`, `all_all` has listed each pair of one of
   *  them and one of its names, and only those. */
  lemma {:induction false} BlocksMembers(cats: seq<string>, n: nat, projects: string -> seq<string>)
    requires n <= |cats|
    ensures forall c, p :: (c, p) in Blocks(cats, n, projects) <==> (exists k :: 0 <= k < n && cats[k] == c) && p in projects(c)
    decreases n
  {
    if n > 0 {
      BlocksMembers(cats, n - 1, projects);
      TaggedMembers(cats[n - 1], projects(cats[n - 1]));
    }
  }

  /** Pairs in strictly ascending order, by category then by project. */
  predicate PairsAscending(r: seq<(string, string)>)
  {
    forall i, j :: 0 <= i < j < |r| ==> PairLess(r[i], r[j])
  }

  /** One category's block is ascending when its projects are. */
  lemma TaggedAscending(category: string, names: seq<string>)
    requires Ascending(names)
    ensures PairsAscending(Tagged(category, names))
  {
    var r := Tagged(category, names);
    forall i, j | 0 <= i < j < |r| ensures PairLess(r[i], r[j]) {
      assert r[i] == (category, names[i]) && r[j] == (category, names[j]);
    }
  }

  /** Two ascending runs, each pair of the first below each pair of the second, make one. */
  lemma AscendingConcat(a: seq<(string, string)>, b: seq<(string, string)>)
    requires PairsAscending(a) && PairsAscending(b)
    requires forall x, y :: x in a && y in b ==> PairLess(x, y)
    ensures PairsAscending(a + b)
  {
    var r := a + b;
    forall i, j | 0 <= i < j < |r| ensures PairLess(r[i], r[j]) {
      if j < |a| {
        assert r[i] == a[i] && r[j] == a[j];
      } else if i >= |a| {
        assert r[i] == b[i - |a|] && r[j] == b[j - |a|];
      } else {
        assert r[i] == a[i] && r[j] == b[j - |a|];
      }
    }
  }

  /** After ascending categories, each with ascending names, the `all_all` selection is
   *  strictly ascending. */
  lemma {:induction false} BlocksAscending(cats: seq<string>, n: nat, projects: string -> seq<string>)
    requires n <= |cats|
    requires Ascending(cats)
    requires forall c :: Ascending(projects(c))
    ensures PairsAscending(Blocks(cats, n, projects))
    decreases n
  {
    if n > 0 {
      var front := Blocks(cats, n - 1, projects);
      var block := Tagged(cats[n - 1], projects(cats[n - 1]));
      BlocksAscending(cats, n - 1, projects);
      BlocksMembers(cats, n - 1, projects);
      TaggedAscending(cats[n - 1], projects(cats[n - 1]));
      forall x, y | x in front && y in block ensures PairLess(x, y) {
        var k :| 0 <= k < n - 1 && cats[k] == x.0;
        var m :| 0 <= m < |block| && block[m] == y;
        assert StrLess(cats[k], cats[n - 1]);
      }
      AscendingConcat(front, block);
    }
  }

  /** `category_all` lists the category's projects on either side, each once, in
   *  ascending order. */
  lemma CategoryAllOrdered(disk: Disk, cloud: Cloud, category: string)
    requires category != ""
    ensures var r := Selected(disk, cloud, Selector(CategoryAll, Some(category), None));
      && (forall c, p :: (c, p) in r <==> c == category && p in ProjectsOf(disk, cloud, category))
      && (forall i, j :: 0 <= i < j < |r| ==> r[i].0 == category && StrLess(r[i].1, r[j].1))
  {
    var names := SortedNames(ProjectsOf(disk, cloud, category));
    var r := Tagged(category, names);
    SortedNamesAscending(ProjectsOf(disk, cloud, category));
    forall c, p | (c, p) in r ensures c == category && p in names {
      var k :| 0 <= k < |r| && r[k] == (c, p);
    }
    forall p | p in ProjectsOf(disk, cloud, category) ensures (category, p) in r {
      var k :| 0 <= k < |names| && names[k] == p;
      assert r[k] == (category, p);
    }
  }

  /** `all_all` lists every category on either side with each of its projects, and
   *  nothing else. */
  lemma AllAllMembers(disk: Disk, cloud: Cloud)
    ensures var r := Selected(disk, cloud, Selector(AllAll, None, None));
      forall c, p :: (c, p) in r <==> c in CategoriesOf(disk, cloud) && p in ProjectsOf(disk, cloud, c)
  {
    var cats := SortedNames(CategoriesOf(disk, cloud));
    BlocksCover(cats, SortedProjects(disk, cloud), CategoriesOf(disk, cloud), c => ProjectsOf(disk, cloud, c));
  }

  /** When `cats` lists the members of `catSet` and `projects` those of `projSet`, the
   *  blocks after all of `cats` hold exactly the pairs of the two sets. */
  lemma BlocksCover(cats: seq<string>, projects: string -> seq<string>, catSet: set<string>, projSet: string -> set<string>)
    requires forall c :: c in cats <==> c in catSet
    requires forall c, p :: p in projects(c) <==> p in projSet(c)
    ensures forall c, p :: (c, p) in Blocks(cats, |cats|, projects) <==> c in catSet && p in projSet(c)
  {
    BlocksMembers(cats, |cats|, projects);
    forall c | c in catSet ensures exists k :: 0 <= k < |cats| && cats[k] == c {
      var k :| 0 <= k < |cats| && cats[k] == c;
    }
  }

  /** `all_all` lists its pairs by category, then by project, each once. */
  lemma AllAllAscending(disk: Disk, cloud: Cloud)
    ensures PairsAscending(Selected(disk, cloud, Selector(AllAll, None, None)))
  {
    var cats := SortedNames(CategoriesOf(disk, cloud));
    var projects := SortedProjects(disk, cloud);
    SortedNamesAscending(CategoriesOf(disk, cloud));
    forall c ensures Ascending(projects(c)) {
      SortedNamesAscending(ProjectsOf(disk, cloud, c));
    }
    BlocksAscending(cats, |cats|, projects);
  }

  /** A scope it does not know selects nothing, and so does `single` or `category_one`
   *  without both names, or `category_all` without a category. */
  lemma NothingSelected(disk: Disk, cloud: Cloud, sel: Selector)
    requires || sel.scope.Unknown?
             || ((sel.scope.Single? || sel.scope.CategoryOne?) && !(Truthy(sel.category) && Truthy(sel.project)))
             || (sel.scope.CategoryAll? && !Truthy(sel.category))
    ensures Selected(disk, cloud, sel) == []
  {
  }

  /** The argument dispatch of `_select_targets`: the selector to run, or `None` when the
   *  usage is printed and the program exits with status 1. */
  function SelectorFor(ctx: Context, args: seq<string>): (r: Option<Selector>)
    ensures r.None? <==>
      && !(ctx.InProject? && args == [])
      && !(ctx.InCategory? && |args| == 1)
      && !(|args| == 2 && !(args[0] == "all" && args[1] != "all"))
    ensures r.Some? ==> !r.value.scope.Unknown?
    ensures r.Some? ==> (r.value.category.None? <==> r.value.scope.AllAll?)
    ensures r.Some? ==> (r.value.project.Some? <==> r.value.scope.Single? || r.value.scope.CategoryOne?)
    ensures ctx.InProject? && args == [] ==> r == Some(Selector(Single, Some(ctx.category), Some(ctx.project)))
    ensures ctx.InCategory? && |args| == 1 ==> r.Some? && r.value.category == Some(ctx.category)
    ensures ctx.InCategory? && |args| == 1 ==> (r.value.scope == CategoryAll <==> args[0] == "all")
  {
    if ctx.InProject? && args == [] then Some(Selector(Single, Some(ctx.category), Some(ctx.project)))
    else if ctx.InCategory? && |args| == 1 then
      if args[0] == "all" then Some(Selector(CategoryAll, Some(ctx.category), None))
      else Some(Selector(CategoryOne, Some(ctx.category), Some(args[0])))
    else if |args| == 2 then
      if args[0] == "all" && args[1] == "all" then Some(Selector(AllAll, None, None))
      else if args[0] != "all" && args[1] == "all" then Some(Selector(CategoryAll, Some(args[0]), None))
      else if args[0] != "all" && args[1] != "all" then Some(Selector(Single, Some(args[0]), Some(args[1])))
      else None
    else None
  }

  /** The two-argument forms work the same from any folder: `all all`, `<category> all`,
   *  `<category> <project>`; `all <project>` is refused. */
  lemma GlobalFormsAnywhere(ctx: Context, a1: string, a2: string)
    ensures SelectorFor(ctx, [a1, a2]) == SelectorFor(Outside, [a1, a2])
    ensures a1 == "all" && a2 == "all" ==> SelectorFor(ctx, [a1, a2]) == Some(Selector(AllAll, None, None))
    ensures a1 != "all" && a2 == "all" ==> SelectorFor(ctx, [a1, a2]) == Some(Selector(CategoryAll, Some(a1), None))
    ensures a1 != "all" && a2 != "all" ==> SelectorFor(ctx, [a1, a2]) == Some(Selector(Single, Some(a1), Some(a2)))
    ensures a1 == "all" && a2 != "all" ==> SelectorFor(ctx, [a1, a2]).None?
  {
  }

  /** `_select_targets`: `None` is the usage message and exit. */
  method SelectTargets(disk: Disk, cloud: Cloud, ctx: Context, args: seq<string>) returns (targets: Option<seq<(string, string)>>)
    ensures targets.None? <==> SelectorFor(ctx, args).None?
    ensures targets.Some? ==> targets.value == Selected(disk, cloud, SelectorFor(ctx, args).value)
  {
    var sel := SelectorFor(ctx, args);
    if sel.None? {
      return None;
    }
    var selected := IterSelected(disk, cloud, sel.value);
    targets := Some(selected);
  }

  /** Run from a project folder without arguments, the command targets that project. */
  lemma ProjectFolderTargetsItself(disk: Disk, cloud: Cloud, category: string, project: string)
    requires category != "" && project != ""
    ensures Selected(disk, cloud, SelectorFor(InProject(category, project), []).value) == [(category, project)]
  {
  }

  // ------------------------------------------------------------------ list

  /** The mark a project gets in `list`, from the sides it is on. */
  function ExpectedMark(local: bool, cloud: bool): string
  {
    if local && cloud then "local/cloud"
    else if local then "local"
    else if cloud then "cloud"
    else "—"
  }

  /** The marks of `cmd_list` for one project: "local" if it is on disk, "cloud" if it is
   *  in the cloud, joined with '/'; "—" for neither. */
  method Mark(project: string, local: set<string>, cloud: set<string>) returns (mark: string)
    ensures mark == ExpectedMark(project in local, project in cloud)
  {
    var marks: seq<string> := [];
    if project in local {
      marks := marks + ["local"];
    }
    if project in cloud {
      marks := marks + ["cloud"];
    }
    mark := if marks != [] then Join(marks, '/') else "—";
    assert Join(["local", "cloud"], '/') == "local" + ['/'] + Join(["cloud"], '/');
  }

  /** Every project `list` shows is on one side at least, so "—" is never printed. */
  lemma ListedProjectsAreMarked(disk: Disk, cloud: Cloud, category: string, project: string)
    requires project in ProjectsOf(disk, cloud, category)
    ensures var m := ExpectedMark(project in LocalSet(disk, category), project in CloudSet(cloud, CloudTop + category));
      m != "—" && m in {"local", "cloud", "local/cloud"}
  {
  }

  /** The rows `list` prints for the first `n` projects of `names`, marked by whether each
   *  is among the names on disk, `local`, and among those in the cloud, `remote`. */
  function MarkedRows(names: seq<string>, n: nat, local: set<string>, remote: set<string>): (r: seq<(string, string)>)
    requires n <= |names|
    ensures |r| == n
  {
    if n == 0 then []
    else MarkedRows(names, n - 1, local, remote) + [(names[n - 1], ExpectedMark(names[n - 1] in local, names[n - 1] in remote))]
  }

  /** The rows `list` prints for a category: its projects in ascending order, each with its
   *  mark. */
  ghost function CategoryListing(disk: Disk, cloud: Cloud, category: string): seq<(string, string)>
  {
    var names := SortedNames(ProjectsOf(disk, cloud, category));
    MarkedRows(names, |names|, LocalSet(disk, category), CloudSet(cloud, CloudTop + category))
  }

  /** The rows of one category. */
  method CategoryRows(disk: Disk, cloud: Cloud, category: string) returns (rows: seq<(string, string)>)
    ensures rows == CategoryListing(disk, cloud, category)
  {
    var local := LocalFolderSet(disk, category);
    var remote := CloudSet(cloud, CloudTop + category);
    var names := SortedSet(local + remote);
    rows := MarkRows(names, local, remote);
  }

  /** The loop of `cmd_list` over the projects of a category. */
  method MarkRows(names: seq<string>, local: set<string>, remote: set<string>) returns (rows: seq<(string, string)>)
    ensures rows == MarkedRows(names, |names|, local, remote)
  {
    rows := [];
    var i := 0;
    while i < |names|
      invariant 0 <= i <= |names|
      invariant rows == MarkedRows(names, i, local, remote)
      decreases |names| - i
    {
      var mark := Mark(names[i], local, remote);
      rows := rows + [(names[i], mark)];
      i := i + 1;
    }
  }

  /** What `list` shows for the first `n` categories of `cats`: each category with its
   *  rows. */
  ghost function Listing(disk: Disk, cloud: Cloud, cats: seq<string>, n: nat): (r: seq<(string, seq<(string, string)>)>)
    requires n <= |cats|
    ensures |r| == n
    ensures forall i :: 0 <= i < n ==> r[i].0 == cats[i]
  {
    if n == 0 then []
    else Listing(disk, cloud, cats, n - 1) + [(cats[n - 1], CategoryListing(disk, cloud, cats[n - 1]))]
  }

  /** `cmd_list`: every category on either side in ascending order, each with its projects
   *  in ascending order and their marks. */
  method ListAll(disk: Disk, cloud: Cloud) returns (listing: seq<(string, seq<(string, string)>)>)
    ensures var cats := SortedNames(CategoriesOf(disk, cloud)); listing == Listing(disk, cloud, cats, |cats|)
  {
    var cats := CategoryNames(disk, cloud);
    listing := ListCategories(disk, cloud, cats);
  }

  /** The loop of `cmd_list` over the categories `cats`. */
  method ListCategories(disk: Disk, cloud: Cloud, cats: seq<string>) returns (listing: seq<(string, seq<(string, string)>)>)
    ensures listing == Listing(disk, cloud, cats, |cats|)
  {
    listing := [];
    var i := 0;
    while i < |cats|
      invariant 0 <= i <= |cats|
      invariant listing == Listing(disk, cloud, cats, i)
      decreases |cats| - i
    {
      var rows := CategoryRows(disk, cloud, cats[i]);
      listing := listing + [(cats[i], rows)];
      i := i + 1;
    }
  }

  /** Rows for names each on one side at least list those names in order, none marked
   *  "—". */
  lemma {:induction false} MarkedRowsMarked(names: seq<string>, n: nat, local: set<string>, remote: set<string>)
    requires n <= |names|
    requires forall k :: 0 <= k < n ==> names[k] in local + remote
    ensures var r := MarkedRows(names, n, local, remote);
      forall k :: 0 <= k < n ==> r[k].0 == names[k] && r[k].1 in {"local", "cloud", "local/cloud"}
    decreases n
  {
    if n > 0 {
      MarkedRowsMarked(names, n - 1, local, remote);
    }
  }

  /** The rows of a category list its projects in ascending order, each marked, none with
   *  "—". */
  lemma CategoryListingMarked(disk: Disk, cloud: Cloud, category: string)
    ensures var names := SortedNames(ProjectsOf(disk, cloud, category));
      var r := CategoryListing(disk, cloud, category);
      |r| == |names| && forall k :: 0 <= k < |r| ==> r[k].0 == names[k] && r[k].1 in {"local", "cloud", "local/cloud"}
  {
    var names := SortedNames(ProjectsOf(disk, cloud, category));
    forall k | 0 <= k < |names| ensures names[k] in LocalSet(disk, category) + CloudSet(cloud, CloudTop + category) {
      assert names[k] in names;
    }
    MarkedRowsMarked(names, |names|, LocalSet(disk, category), CloudSet(cloud, CloudTop + category));
  }

  // ------------------------------------------------------------------ main

  /** The targets of `main` that reach `_run_for_project`, in target order: `save` and
   *  `status` drop a target whose project folder is missing on disk. */
  function Runnable(command: string, disk: Disk, targets: seq<(string, string)>): (run: seq<(string, string)>)
    ensures forall t :: t in run <==> t in targets && (command in {"save", "status"} ==> PathJoin(t.0, t.1) in disk)
    ensures command !in {"save", "status"} ==> run == targets
    ensures |run| <= |targets|
    decreases |targets|
  {
    if targets == [] then []
    else
      var last := targets[|targets| - 1];
      var rest := Runnable(command, disk, targets[..|targets| - 1]);
      assert targets == targets[..|targets| - 1] + [last];
      if command in {"save", "status"} && PathJoin(last.0, last.1) !in disk then rest else rest + [last]
  }

  /** The loop of `main` over the targets: `save` and `status` skip a target whose project
   *  folder is missing on disk; the other targets go to `_run_for_project` in order. */
  method RunnableTargets(command: string, disk: Disk, targets: seq<(string, string)>) returns (run: seq<(string, string)>)
    ensures run == Runnable(command, disk, targets)
    ensures forall t :: t in run <==> t in targets && (command in {"save", "status"} ==> PathJoin(t.0, t.1) in disk)
    ensures command !in {"save", "status"} ==> run == targets
  {
    run := [];
    var i := 0;
    while i < |targets|
      invariant 0 <= i <= |targets|
      invariant run == Runnable(command, disk, targets[..i])
      decreases |targets| - i
    {
      var (category, project) := targets[i];
      assert targets[..i + 1][..i] == targets[..i];
      i := i + 1;
      if command == "save" || command == "status" {
        if PathJoin(category, project) !in disk {
          continue;
        }
      }
      run := run + [(category, project)];
    }
    assert targets[..i] == targets;
  }
}
