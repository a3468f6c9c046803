/** Loading the posts tree and the posts themselves: from the `posts.json`
    the build script writes, or from the GitHub contents API, with the last
    tree fetched from GitHub kept as a fallback. Requests are parameters:
    whether a listing request succeeded and the items it gave, the
    local index file if it could be read, and a text fetch. */
module Loader {
  import opened Wrappers
  import opened Text
  import opened ContentTree

  const ApiFailure: string := "GitHub API请求失败"
  const MissingIndex: string := "posts.json不存在，请运行 node build.js"
  const MissingPost: string := "文章不存在"

  /** The site's settings for where posts come from. */
  datatype Config = Config(useGitHubApi: bool, owner: string, repo: string, branch: string, postsPath: string)

  const DefaultConfig: Config := Config(false, "", "", "main", "posts")

  /** Posts come from GitHub only when that is switched on and both the
      owner and the repository are given. */
  predicate UsesGitHub(config: Config) {
    config.useGitHubApi && config.owner != "" && config.repo != ""
  }

  // ---------------------------------------------------------------------
  // The GitHub contents listing
  // ---------------------------------------------------------------------

  /** An item of a contents listing, with its path from the repository
      root: a directory together with the answer to the request for its
      own listing (whether it succeeded, and the items it gave), or any
      other item, of which only the name and path matter. */
  datatype ApiEntry =
    | ApiDir(name: string, path: string, ok: bool, items: seq<ApiEntry>)
    | ApiFile(name: string, path: string)

  function ApiBefore(le: (string, string) -> bool): (ApiEntry, ApiEntry) -> bool {
    (a: ApiEntry, b: ApiEntry) => DirsFirst(le, a.ApiDir?, a.name, b.ApiDir?, b.name)
  }

  /** How a subdirectory's own items are placed in the tree: under the
      directory's repository path, or under the path its folder gets in the
      tree. */
  datatype Nesting = RepoPath | TreePath

  function ChildBase(e: ApiEntry, basePath: string, nesting: Nesting): string {
    match nesting
    case RepoPath => e.path
    case TreePath => Join(basePath, e.name)
  }

  /** A file's path in the tree: its repository path without a leading
      `posts/`. */
  function FilePath(path: string): (r: string)
    ensures StartsWith(path, "posts/") ==> "posts/" + r == path
  {
    DropPrefix(path, "posts/")
  }

  /** The tree for a listing request: its failure, or its items listed. */
  function Fetch(ok: bool, items: seq<ApiEntry>, basePath: string, le: (string, string) -> bool, nesting: Nesting)
    : Result<seq<Node>>
  {
    if !ok then Err(ApiFailure) else FetchItems(items, basePath, le, nesting)
  }

  /** The items sorted, folders first and then by name, and listed in that
      order; the first failure among the nested requests is the outcome. */
  function FetchItems(items: seq<ApiEntry>, basePath: string, le: (string, string) -> bool, nesting: Nesting)
    : Result<seq<Node>>
    decreases items, 1
  {
    var entries := SortBy(items, ApiBefore(le));
    SortedMembers(items, ApiBefore(le));
    FetchEntries(items, entries, |entries|, basePath, le, nesting)
  }

  /** The outcome for the first `n` of the sorted `entries` of `items`. */
  function FetchEntries(items: seq<ApiEntry>, entries: seq<ApiEntry>, n: nat, basePath: string,
                        le: (string, string) -> bool, nesting: Nesting): Result<seq<Node>>
    requires n <= |entries| && forall x :: x in entries ==> x in items
    decreases items, 0, n
  {
    if n == 0 then Ok([])
    else
      Then(FetchEntries(items, entries, n - 1, basePath, le, nesting), Fetched(items, entries[n - 1], basePath, le, nesting))
  }

  /** The outcome of listing more after `prefix`: the first failure, or
      both listings one after the other. */
  function Then(prefix: Result<seq<Node>>, last: Result<seq<Node>>): (r: Result<seq<Node>>)
    ensures r.Err? <==> prefix.Err? || last.Err?
    ensures r.Err? ==> r.message == (if prefix.Err? then prefix else last).message
    ensures r.Ok? ==> r.value == prefix.value + last.value
  {
    if prefix.Err? then prefix else if last.Err? then last else Ok(prefix.value + last.value)
  }

  /** Listing in steps does not depend on how the steps are grouped, and
      an empty listing adds nothing: `Then` with `Ok([])` is a monoid. */
  lemma ThenMonoid(a: Result<seq<Node>>, b: Result<seq<Node>>, c: Result<seq<Node>>)
    ensures Then(Then(a, b), c) == Then(a, Then(b, c))
    ensures Then(Ok([]), a) == a && Then(a, Ok([])) == a
  {
    if a.Ok? {
      assert [] + a.value == a.value && a.value + [] == a.value;
      if b.Ok? && c.Ok? {
        assert (a.value + b.value) + c.value == a.value + (b.value + c.value);
      }
    }
  }

  /** What one item adds: a folder for a directory with something listed
      in it (or the failure of its request), a file node for a Markdown,
      PDF or Word file, nothing otherwise. */
  function Fetched(items: seq<ApiEntry>, e: ApiEntry, basePath: string, le: (string, string) -> bool, nesting: Nesting)
    : (r: Result<seq<Node>>)
    requires e in items
    ensures r.Ok? ==> |r.value| <= 1
    decreases items, 0, 0
  {
    match e
    case ApiDir(name, _, ok, sub) =>
      if !ok then Err(ApiFailure)
      else
        var children := FetchItems(sub, ChildBase(e, basePath, nesting), le, nesting);
        if children.Err? then children
        else if |children.value| > 0 then Ok([Folder(name, Join(basePath, name), children.value)])
        else Ok([])
    case ApiFile(name, path) =>
      match GetFileType(name)
      case None => Ok([])
      case Some(t) => Ok([File(name, DisplayName(name), FilePath(path), t)])
  }

  /** Once the outcome for a prefix of the entries is a failure, so is the
      outcome for every longer prefix, with the same message. */
  lemma {:induction false} FetchEntriesFailed(items: seq<ApiEntry>, entries: seq<ApiEntry>, n: nat, m: nat, basePath: string,
                                              le: (string, string) -> bool, nesting: Nesting)
    requires n <= m <= |entries| && (forall x :: x in entries ==> x in items)
    requires FetchEntries(items, entries, n, basePath, le, nesting).Err?
    ensures FetchEntries(items, entries, m, basePath, le, nesting) == FetchEntries(items, entries, n, basePath, le, nesting)
    decreases m
  {
    if m > n {
      FetchEntriesFailed(items, entries, n, m - 1, basePath, le, nesting);
    }
  }

  /** One more entry adds what it adds after the listing so far. */
  lemma FetchStep(items: seq<ApiEntry>, entries: seq<ApiEntry>, n: nat, basePath: string,
                  le: (string, string) -> bool, nesting: Nesting)
    requires n < |entries| && (forall x :: x in entries ==> x in items)
    ensures entries[n] in items
    ensures FetchEntries(items, entries, n + 1, basePath, le, nesting)
         == Then(FetchEntries(items, entries, n, basePath, le, nesting), Fetched(items, entries[n], basePath, le, nesting))
  {
  }

  /** `fetchGitHubDirectory`: fails when the request does; otherwise sorts
      the items and walks them, stopping at the first failure. */
  method FetchGitHubDirectory(ok: bool, items: seq<ApiEntry>, basePath: string, le: (string, string) -> bool)
    returns (r: Result<seq<Node>>)
    ensures r == Fetch(ok, items, basePath, le, TreePath)
    decreases items, 1
  {
    if !ok {
      return Err(ApiFailure);
    }
    var entries := SortBy(items, ApiBefore(le));
    SortedMembers(items, ApiBefore(le));
    var result: seq<Node> := [];
    for i := 0 to |entries|
      invariant FetchEntries(items, entries, i, basePath, le, TreePath) == Ok(result)
    {
      var added := ListItem(items, entries[i], basePath, le);
      FetchStep(items, entries, i, basePath, le, TreePath);
      if added.Err? {
        FetchEntriesFailed(items, entries, i + 1, |entries|, basePath, le, TreePath);
        return added;
      }
      result := result + added.value;
    }
    r := Ok(result);
  }

  /** The body of the walk for one item: a subdirectory is fetched in turn
      (its failure is the walk's) and listed when it holds something; a
      Markdown, PDF or Word file is listed with its title and its path
      without `posts/`. */
  method ListItem(items: seq<ApiEntry>, item: ApiEntry, basePath: string, le: (string, string) -> bool)
    returns (added: Result<seq<Node>>)
    requires item in items
    ensures added == Fetched(items, item, basePath, le, TreePath)
    decreases items, 0
  {
    added := Ok([]);
    if item.ApiDir? {
      var relativePath := Join(basePath, item.name);
      var children := FetchGitHubDirectory(item.ok, item.items, relativePath, le);
      if children.Err? {
        return children;
      }
      if |children.value| > 0 {
        added := Ok([Folder(item.name, relativePath, children.value)]);
      }
    } else if EndsWith(item.name, ".md") {
      added := Ok([File(item.name, DropSuffix(item.name, ".md"), FilePath(item.path), Markdown)]);
    } else if EndsWith(item.name, ".pdf") {
      added := Ok([File(item.name, DropSuffix(item.name, ".pdf"), FilePath(item.path), Pdf)]);
    } else if EndsWith(item.name, ".docx") {
      added := Ok([File(item.name, DropSuffix(item.name, ".docx"), FilePath(item.path), Word)]);
    }
  }

  // ---------------------------------------------------------------------
  // GitHub and the build script agree
  // ---------------------------------------------------------------------

  /** The directory on disk a listing describes. */
  function Disk(e: ApiEntry): (d: FsEntry)
    ensures d.name == e.name && d.Dir? == e.ApiDir?
    decreases e
  {
    match e
    case ApiDir(name, _, _, sub) => Dir(name, Disks(sub))
    case ApiFile(name, _) => Plain(name)
  }

  function Disks(items: seq<ApiEntry>): (ds: seq<FsEntry>)
    ensures |ds| == |items|
    decreases items
  {
    if items == [] then [] else [Disk(items[0])] + Disks(items[1..])
  }

  lemma {:induction false} DisksAt(items: seq<ApiEntry>, i: nat)
    requires i < |items|
    ensures Disks(items)[i] == Disk(items[i])
    decreases i
  {
    if i > 0 {
      DisksAt(items[1..], i - 1);
    }
  }

  /** Every request under the listing succeeded, and every item's
      repository path is `posts/` followed by its path in the tree under
      `basePath`, as for the `posts` directory of the repository. */
  ghost predicate Mirrors(items: seq<ApiEntry>, basePath: string)
    decreases items
  {
    forall i :: 0 <= i < |items| ==>
      && items[i].path == "posts/" + Join(basePath, items[i].name)
      && (items[i].ApiDir? ==>
            items[i].ok && Mirrors(items[i].items, Join(basePath, items[i].name)))
  }

  lemma {:induction false} DisksInsert(x: ApiEntry, s: seq<ApiEntry>, le: (string, string) -> bool)
    ensures Disks(Insert(x, s, ApiBefore(le))) == Insert(Disk(x), Disks(s), EntryBefore(le))
  {
    if s != [] {
      assert Disks(s)[0] == Disk(s[0]);
      assert Disks(s)[1..] == Disks(s[1..]);
      if !ApiBefore(le)(x, s[0]) {
        DisksInsert(x, s[1..], le);
        assert Disks([s[0]] + Insert(x, s[1..], ApiBefore(le))) == [Disk(s[0])] + Disks(Insert(x, s[1..], ApiBefore(le)));
      } else {
        assert Disks([x] + s) == [Disk(x)] + Disks(s);
      }
    }
  }

  /** Sorting a listing and then reading it as a directory is reading it
      as a directory and then sorting: both orders compare kind and name. */
  lemma {:induction false} DisksSort(s: seq<ApiEntry>, le: (string, string) -> bool)
    ensures Disks(SortBy(s, ApiBefore(le))) == SortBy(Disks(s), EntryBefore(le))
  {
    if s != [] {
      DisksSort(s[1..], le);
      DisksInsert(s[0], SortBy(s[1..], ApiBefore(le)), le);
      assert Disks(s)[0] == Disk(s[0]);
      assert Disks(s)[1..] == Disks(s[1..]);
    }
  }

  /** When the GitHub listing mirrors the posts directory and every
      request succeeds, the tree fetched from GitHub is the tree the build
      script lists for that directory. */
  lemma {:induction false} FetchMatchesScan(items: seq<ApiEntry>, basePath: string, le: (string, string) -> bool)
    requires Mirrors(items, basePath)
    ensures FetchItems(items, basePath, le, TreePath) == Ok(Scan(Disks(items), basePath, le))
    decreases items, 1
  {
    var entries := SortBy(items, ApiBefore(le));
    SortedMembers(items, ApiBefore(le));
    DisksSort(items, le);
    SortedMembers(Disks(items), EntryBefore(le));
    FetchEntriesMatch(items, entries, |entries|, basePath, le);
  }

  lemma {:induction false} FetchEntriesMatch(items: seq<ApiEntry>, entries: seq<ApiEntry>, n: nat, basePath: string,
                                             le: (string, string) -> bool)
    requires n <= |entries| && (forall x :: x in entries ==> x in items)
    requires forall x :: x in Disks(entries) ==> x in Disks(items)
    requires Mirrors(items, basePath)
    ensures FetchEntries(items, entries, n, basePath, le, TreePath)
         == Ok(ScanEntries(Disks(items), Disks(entries), n, basePath, le))
    decreases items, 0, n, 2
  {
    if n > 0 {
      FetchEntriesMatch(items, entries, n - 1, basePath, le);
      MatchStep(items, entries, n, basePath, le);
    }
  }

  /** When the first `n - 1` entries agree, so do the first `n`. */
  lemma MatchStep(items: seq<ApiEntry>, entries: seq<ApiEntry>, n: nat, basePath: string, le: (string, string) -> bool)
    requires 0 < n <= |entries| && (forall x :: x in entries ==> x in items)
    requires forall x :: x in Disks(entries) ==> x in Disks(items)
    requires Mirrors(items, basePath)
    requires FetchEntries(items, entries, n - 1, basePath, le, TreePath)
          == Ok(ScanEntries(Disks(items), Disks(entries), n - 1, basePath, le))
    ensures FetchEntries(items, entries, n, basePath, le, TreePath)
         == Ok(ScanEntries(Disks(items), Disks(entries), n, basePath, le))
    decreases items, 0, n, 1
  {
    FetchedStep(items, entries, n, basePath, le);
    ListedStep(items, entries, n, basePath, le);
  }

  /** The `n`-th entry fetched adds what the build script lists for it. */
  lemma FetchedStep(items: seq<ApiEntry>, entries: seq<ApiEntry>, n: nat, basePath: string, le: (string, string) -> bool)
    requires 0 < n <= |entries| && (forall x :: x in entries ==> x in items)
    requires Mirrors(items, basePath)
    ensures Disk(entries[n - 1]) in Disks(items)
    ensures FetchEntries(items, entries, n, basePath, le, TreePath)
         == Then(FetchEntries(items, entries, n - 1, basePath, le, TreePath),
                 Ok(Listed(Disks(items), Disk(entries[n - 1]), basePath, le)))
    decreases items, 0, n, 0
  {
    FetchStep(items, entries, n - 1, basePath, le, TreePath);
    FetchedMatch(items, entries[n - 1], basePath, le);
  }

  /** The `n`-th entry read as a directory adds what it lists. */
  lemma ListedStep(items: seq<ApiEntry>, entries: seq<ApiEntry>, n: nat, basePath: string, le: (string, string) -> bool)
    requires 0 < n <= |entries|
    requires forall x :: x in Disks(entries) ==> x in Disks(items)
    ensures Disk(entries[n - 1]) in Disks(items)
    ensures ScanEntries(Disks(items), Disks(entries), n, basePath, le)
         == ScanEntries(Disks(items), Disks(entries), n - 1, basePath, le)
            + Listed(Disks(items), Disk(entries[n - 1]), basePath, le)
  {
    DisksAt(entries, n - 1);
    ScanStep(Disks(items), Disks(entries), n - 1, basePath, le);
  }

  lemma {:induction false} FetchedMatch(items: seq<ApiEntry>, e: ApiEntry, basePath: string, le: (string, string) -> bool)
    requires e in items && Mirrors(items, basePath)
    ensures Disk(e) in Disks(items)
    ensures Fetched(items, e, basePath, le, TreePath) == Ok(Listed(Disks(items), Disk(e), basePath, le))
    decreases items, 0, 0
  {
    var k :| 0 <= k < |items| && items[k] == e;
    DisksAt(items, k);
    var path := Join(basePath, e.name);
    assert e.path == "posts/" + path;
    if e.ApiDir? {
      FetchMatchesScan(e.items, path, le);
      assert Disk(e).entries == Disks(e.items);
    } else {
      RepoFilePath(path);
    }
  }

  lemma RepoFilePath(path: string)
    ensures FilePath("posts/" + path) == path
  {
    assert StartsWith("posts/" + path, "posts/");
  }

  /** So the tree fetched from a mirroring listing has everything the
      sidebar relies on, and holds every supported file once. */
  lemma FetchedTreeWellFormed(items: seq<ApiEntry>, le: (string, string) -> bool)
    requires Total(le) && Transitive(le)
    requires Mirrors(items, "")
    ensures Fetch(true, items, "", le, TreePath).Ok?
    ensures WellFormed(Fetch(true, items, "", le, TreePath).value, "", le)
    ensures FileCount(Fetch(true, items, "", le, TreePath).value) == SupportedCount(Disks(items))
  {
    FetchMatchesScan(items, "", le);
    ScanWellFormed(Disks(items), "", le);
    ScanCountsEveryFile(Disks(items), "", le);
  }

  /** A listing of one item lists what that item adds. */
  lemma FetchSingle(x: ApiEntry, basePath: string, le: (string, string) -> bool, nesting: Nesting)
    ensures FetchItems([x], basePath, le, nesting) == Fetched([x], x, basePath, le, nesting)
  {
    var entries := SortBy([x], ApiBefore(le));
    assert entries == [x];
    var last := Fetched([x], x, basePath, le, nesting);
    assert FetchEntries([x], entries, 0, basePath, le, nesting) == Ok([]);
    assert FetchEntries([x], entries, 1, basePath, le, nesting) == Then(Ok([]), last);
    if last.Ok? {
      assert [] + last.value == last.value;
    }
  }

  /** The sample repository `posts/a/b/x.md`: directory `a` holding
      directory `b` holding the Markdown file `x.md`. */
  const SampleFile: ApiEntry := ApiFile("x.md", "posts/a/b/x.md")
  const SampleB: ApiEntry := ApiDir("b", "posts/a/b", true, [SampleFile])
  const SampleA: ApiEntry := ApiDir("a", "posts/a", true, [SampleB])
  const SampleNode: Node := File("x.md", "x", "a/b/x.md", Markdown)

  lemma SampleFileListed(basePath: string, le: (string, string) -> bool, nesting: Nesting)
    ensures FetchItems([SampleFile], basePath, le, nesting) == Ok([SampleNode])
  {
    assert EndsWith("x.md", ".md");
    assert DisplayName("x.md") == "x";
    assert FilePath("posts/a/b/x.md") == "a/b/x.md" by {
      assert StartsWith("posts/a/b/x.md", "posts/");
    }
    assert Fetched([SampleFile], SampleFile, basePath, le, nesting) == Ok([SampleNode]);
    FetchSingle(SampleFile, basePath, le, nesting);
  }

  lemma SampleBListed(basePath: string, le: (string, string) -> bool, nesting: Nesting)
    ensures FetchItems([SampleB], basePath, le, nesting) == Ok([Folder("b", Join(basePath, "b"), [SampleNode])])
  {
    SampleFileListed(ChildBase(SampleB, basePath, nesting), le, nesting);
    assert Fetched([SampleB], SampleB, basePath, le, nesting) == Ok([Folder("b", Join(basePath, "b"), [SampleNode])]);
    FetchSingle(SampleB, basePath, le, nesting);
  }

  lemma SampleAListed(le: (string, string) -> bool, nesting: Nesting)
    ensures FetchItems([SampleA], "", le, nesting)
         == Ok([Folder("a", "a", [Folder("b", Join(ChildBase(SampleA, "", nesting), "b"), [SampleNode])])])
  {
    SampleBListed(ChildBase(SampleA, "", nesting), le, nesting);
    assert Fetched([SampleA], SampleA, "", le, nesting)
        == Ok([Folder("a", "a", [Folder("b", Join(ChildBase(SampleA, "", nesting), "b"), [SampleNode])])]);
    FetchSingle(SampleA, "", le, nesting);
  }

  /** As written, a subdirectory's items are placed under the directory's
      repository path, so a folder two levels down gets a path that starts
      with `posts/`, unlike the files in it and unlike the build script's
      tree: `posts/a/b/x.md` lists folder `b` at `posts/a/b` while its file
      is at `a/b/x.md`. */
  lemma RepoPathCounterexample(le: (string, string) -> bool)
    ensures Mirrors([SampleA], "")
    ensures Fetch(true, [SampleA], "", le, RepoPath)
         == Ok([Folder("a", "a", [Folder("b", "posts/a/b", [File("x.md", "x", "a/b/x.md", Markdown)])])])
    ensures Fetch(true, [SampleA], "", le, TreePath)
         == Ok([Folder("a", "a", [Folder("b", "a/b", [File("x.md", "x", "a/b/x.md", Markdown)])])])
  {
    assert Join("posts/a", "b") == "posts/a/b";
    assert Join("a", "b") == "a/b";
    assert "posts/" + Join("a/b", "x.md") == "posts/a/b/x.md";
    assert Mirrors([SampleFile], "a/b");
    assert "posts/" + Join("a", "b") == "posts/a/b";
    assert Mirrors([SampleB], "a");
    SampleAListed(le, RepoPath);
    SampleAListed(le, TreePath);
  }

  // ---------------------------------------------------------------------
  // Loading the tree, with the last GitHub tree kept as a fallback
  // ---------------------------------------------------------------------

  /** What a GitHub load answers: the fetched tree, or else the tree kept
      from an earlier load, or else the failure. */
  function LoadOutcome(kept: Option<seq<Node>>, fetched: Result<seq<Node>>): (r: Result<seq<Node>>)
    ensures fetched.Ok? ==> r == fetched
    ensures fetched.Err? && kept.Some? ==> r == Ok(kept.value)
    ensures r.Err? <==> fetched.Err? && kept.None?
  {
    if fetched.Ok? then fetched else if kept.Some? then Ok(kept.value) else fetched
  }

  /** The tree kept after a load: the fetched one if the fetch succeeded. */
  function KeptAfter(kept: Option<seq<Node>>, fetched: Result<seq<Node>>): Option<seq<Node>> {
    if fetched.Ok? then Some(fetched.value) else kept
  }

  /** The tree kept after a run of loads, in order. */
  function KeptAfterAll(kept: Option<seq<Node>>, fetches: seq<Result<seq<Node>>>): Option<seq<Node>>
    decreases |fetches|
  {
    if fetches == [] then kept
    else KeptAfter(KeptAfterAll(kept, fetches[..|fetches| - 1]), fetches[|fetches| - 1])
  }

  /** After a run of loads, a load that fails answers the tree of the last
      one that succeeded, whatever failed after it. */
  lemma {:induction false} FailedLoadServesLastSuccess(kept: Option<seq<Node>>, fetches: seq<Result<seq<Node>>>, j: nat,
                                                       fetched: Result<seq<Node>>)
    requires j < |fetches| && fetches[j].Ok?
    requires forall k :: j < k < |fetches| ==> fetches[k].Err?
    requires fetched.Err?
    ensures KeptAfterAll(kept, fetches) == Some(fetches[j].value)
    ensures LoadOutcome(KeptAfterAll(kept, fetches), fetched) == fetches[j]
    decreases |fetches|
  {
    if j < |fetches| - 1 {
      FailedLoadServesLastSuccess(kept, fetches[..|fetches| - 1], j, fetched);
    }
  }

  /** The browser's local storage, as far as the tree loader uses it: the
      last tree fetched from GitHub and when it was fetched. */
  class PostsStore {
    var postsTree: Option<seq<Node>>
    var postsTreeTime: Option<int>

    constructor(postsTree: Option<seq<Node>>, postsTreeTime: Option<int>)
      ensures this.postsTree == postsTree && this.postsTreeTime == postsTreeTime
    {
      this.postsTree := postsTree;
      this.postsTreeTime := postsTreeTime;
    }

    /** `loadFromGitHub`: fetches the `posts` listing; keeps the tree, and
        the time `now`, when that succeeds, and otherwise answers the kept
        tree, or the failure when there is none. */
    method LoadFromGitHub(ok: bool, items: seq<ApiEntry>, le: (string, string) -> bool, now: int)
      returns (r: Result<seq<Node>>)
      modifies this
      ensures var fetched := Fetch(ok, items, "", le, TreePath);
        && r == LoadOutcome(old(postsTree), fetched)
        && postsTree == KeptAfter(old(postsTree), fetched)
        && postsTreeTime == (if fetched.Ok? then Some(now) else old(postsTreeTime))
    {
      var tree := FetchGitHubDirectory(ok, items, "", le);
      if tree.Ok? {
        postsTree := Some(tree.value);
        postsTreeTime := Some(now);
        return tree;
      }
      if postsTree.Some? {
        return Ok(postsTree.value);
      }
      return tree;
    }

    /** `loadPostsTree`: from GitHub when the configuration says so,
        otherwise from `posts.json` (`localIndex`, `None` when it cannot be
        read), which leaves the storage alone. */
    method LoadPostsTree(config: Config, localIndex: Option<seq<Node>>, ok: bool, items: seq<ApiEntry>,
                         le: (string, string) -> bool, now: int)
      returns (r: Result<seq<Node>>)
      modifies this
      ensures UsesGitHub(config) ==>
        var fetched := Fetch(ok, items, "", le, TreePath);
        && r == LoadOutcome(old(postsTree), fetched)
        && postsTree == KeptAfter(old(postsTree), fetched)
        && postsTreeTime == (if fetched.Ok? then Some(now) else old(postsTreeTime))
      ensures !UsesGitHub(config) ==>
        && r == (if localIndex.Some? then Ok(localIndex.value) else Err(MissingIndex))
        && postsTree == old(postsTree) && postsTreeTime == old(postsTreeTime)
    {
      if UsesGitHub(config) {
        r := LoadFromGitHub(ok, items, le, now);
      } else if localIndex.Some? {
        r := Ok(localIndex.value);
      } else {
        r := Err(MissingIndex);
      }
    }
  }

  // ---------------------------------------------------------------------
  // Loading a post
  // ---------------------------------------------------------------------

  /** A loaded post: a PDF or Word document is opened from its address, a
      Markdown post is read as text. */
  datatype Post = PdfPost(url: string) | WordPost(url: string) | MarkdownPost(content: string)

  /** The address of a post in the repository, as `raw.githubusercontent.com` serves it. */
  function RawUrl(config: Config, filepath: string): (url: string)
    ensures EndsWith(url, "/" + filepath)
  {
    var url := "https://raw.githubusercontent.com/" + config.owner + "/" + config.repo + "/" + config.branch + "/"
               + config.postsPath + "/" + filepath;
    assert url == ("https://raw.githubusercontent.com/" + config.owner + "/" + config.repo + "/" + config.branch + "/"
                   + config.postsPath) + ("/" + filepath);
    url
  }

  /** The address of a post on the site itself: without a leading `/`,
      under `posts/` unless the path already starts there. */
  function LocalUrl(filepath: string): (url: string)
    ensures StartsWith(url, "posts/")
    ensures !StartsWith(filepath, "/") && !StartsWith(filepath, "posts/") ==> url == "posts/" + filepath
  {
    var clean := if StartsWith(filepath, "/") then filepath[1..] else filepath;
    if StartsWith(clean, "posts/") then clean else "posts/" + clean
  }

  /** Asking again for the address of an address changes nothing, so a
      path never gets `posts/` twice. */
  lemma LocalUrlIdempotent(filepath: string)
    ensures LocalUrl(LocalUrl(filepath)) == LocalUrl(filepath)
  {
    var url := LocalUrl(filepath);
    assert url[0] == 'p';
    assert !StartsWith(url, "/");
  }

  function PostUrl(config: Config, filepath: string): string {
    if UsesGitHub(config) then RawUrl(config, filepath) else LocalUrl(filepath)
  }

  /** `loadPost`: a path ending in `.pdf` or `.docx` gives the document's
      address; anything else is fetched as Markdown text (`fetchText`,
      `None` when the request fails). */
  function LoadPost(config: Config, filepath: string, fetchText: string -> Option<string>): (r: Result<Post>)
    ensures EndsWith(filepath, ".pdf") ==> r == Ok(PdfPost(PostUrl(config, filepath)))
    ensures !EndsWith(filepath, ".pdf") && EndsWith(filepath, ".docx") ==> r == Ok(WordPost(PostUrl(config, filepath)))
    ensures r.Err? <==> !EndsWith(filepath, ".pdf") && !EndsWith(filepath, ".docx") && fetchText(PostUrl(config, filepath)).None?
    ensures r.Ok? && r.value.MarkdownPost? ==> Some(r.value.content) == fetchText(PostUrl(config, filepath))
  {
    var url := PostUrl(config, filepath);
    if EndsWith(filepath, ".pdf") then Ok(PdfPost(url))
    else if EndsWith(filepath, ".docx") then Ok(WordPost(url))
    else
      match fetchText(url)
      case None => Err(MissingPost)
      case Some(content) => Ok(MarkdownPost(content))
  }

  lemma EndsWithJoin(basePath: string, name: string, ext: string)
    requires EndsWith(name, ext)
    ensures EndsWith(Join(basePath, name), ext)
  {
    var path := Join(basePath, name);
    if basePath != "" {
      assert path == (basePath + "/") + name;
      assert path[|path| - |ext|..] == name[|name| - |ext|..];
    }
  }

  /** A file of the tree opens as what its type says: a PDF or Word file
      as a document at its address, a Markdown file as the text at its
      address (or the missing-post failure). */
  lemma PostMatchesFileType(config: Config, basePath: string, node: Node, fetchText: string -> Option<string>)
    requires node.File? && node.path == Join(basePath, node.name)
    requires GetFileType(node.name) == Some(node.fileType)
    ensures var r := LoadPost(config, node.path, fetchText);
      var url := PostUrl(config, node.path);
      && (node.fileType == Pdf ==> r == Ok(PdfPost(url)))
      && (node.fileType == Word ==> r == Ok(WordPost(url)))
      && (node.fileType == Markdown ==>
            r == (if fetchText(url).Some? then Ok(MarkdownPost(fetchText(url).value)) else Err(MissingPost)))
  {
    match node.fileType
    case Pdf =>
      EndsWithJoin(basePath, node.name, ".pdf");
    case Word =>
      EndsWithJoin(basePath, node.name, ".docx");
      WordPostOpens(config, node.path, fetchText);
    case Markdown =>
      EndsWithJoin(basePath, node.name, ".md");
      MarkdownPostOpens(config, node.path, fetchText);
  }

  lemma WordPostOpens(config: Config, path: string, fetchText: string -> Option<string>)
    requires EndsWith(path, ".docx")
    ensures LoadPost(config, path, fetchText) == Ok(WordPost(PostUrl(config, path)))
  {
    SuffixExcludes(path, ".docx", ".pdf");
  }

  lemma MarkdownPostOpens(config: Config, path: string, fetchText: string -> Option<string>)
    requires EndsWith(path, ".md")
    ensures var url := PostUrl(config, path);
      LoadPost(config, path, fetchText)
      == (if fetchText(url).Some? then Ok(MarkdownPost(fetchText(url).value)) else Err(MissingPost))
  {
    SuffixExcludes(path, ".md", ".pdf");
    SuffixExcludes(path, ".md", ".docx");
  }

  /** Two suffixes with different last characters cannot both end a string. */
  lemma SuffixExcludes(s: string, p: string, q: string)
    requires EndsWith(s, p) && |p| > 0 && |q| > 0 && p[|p| - 1] != q[|q| - 1]
    ensures !EndsWith(s, q)
  {
    assert s[|s| - 1] == s[|s| - |p|..][|p| - 1];
  }
}
