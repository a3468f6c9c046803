/** The tree of posts shown in the sidebar, as the build script derives it
    from the posts directory: folders first, then files, each level ordered
    by name; only Markdown, PDF and Word files; no empty folders; every
    path relative to the posts directory. */
module ContentTree {
  import opened Wrappers
  import opened Text

  // ---------------------------------------------------------------------
  // File types and titles
  // ---------------------------------------------------------------------

  datatype FileType = Markdown | Pdf | Word

  function Extension(t: FileType): string {
    match t
    case Markdown => ".md"
    case Pdf => ".pdf"
    case Word => ".docx"
  }

  /** The type of a file from the end of its name; `None` for any other file. */
  function GetFileType(name: string): (r: Option<FileType>)
    ensures r.Some? ==> EndsWith(name, Extension(r.value))
    ensures r.None? <==> !EndsWith(name, ".md") && !EndsWith(name, ".pdf") && !EndsWith(name, ".docx")
  {
    if EndsWith(name, ".md") then Some(Markdown)
    else if EndsWith(name, ".pdf") then Some(Pdf)
    else if EndsWith(name, ".docx") then Some(Word)
    else None
  }

  /** The title of a file: its name without a trailing `.md`, `.pdf` or `.docx`. */
  function DisplayName(name: string): string {
    if EndsWith(name, ".md") then DropSuffix(name, ".md")
    else if EndsWith(name, ".pdf") then DropSuffix(name, ".pdf")
    else DropSuffix(name, ".docx")
  }

  /** The title drops exactly the extension that gives the file its type,
      and leaves the name of any other file as it is. */
  lemma DisplayNameDropsExtension(name: string)
    ensures GetFileType(name).Some? ==> DisplayName(name) + Extension(GetFileType(name).value) == name
    ensures GetFileType(name).None? ==> DisplayName(name) == name
  {
  }

  // ---------------------------------------------------------------------
  // Ordering
  // ---------------------------------------------------------------------

  /** `before` relates every two values one way or the other. */
  ghost predicate Total<T(!new)>(before: (T, T) -> bool) {
    forall a, b :: before(a, b) || before(b, a)
  }

  ghost predicate Transitive<T(!new)>(before: (T, T) -> bool) {
    forall a, b, c :: before(a, b) && before(b, c) ==> before(a, c)
  }

  /** Every value comes `before` every later one. */
  ghost predicate Ordered<T(!new)>(s: seq<T>, before: (T, T) -> bool) {
    forall i, j :: 0 <= i < j < |s| ==> before(s[i], s[j])
  }

  /** Puts `x` in front of the first element it comes `before`. */
  function Insert<T(!new)>(x: T, s: seq<T>, before: (T, T) -> bool): (r: seq<T>)
    ensures multiset(r) == multiset(s) + multiset{x}
  {
    if s == [] then [x]
    else if before(x, s[0]) then [x] + s
    else
      assert s == [s[0]] + s[1..];
      [s[0]] + Insert(x, s[1..], before)
  }

  /** The values of `s` in the order `before` gives, equal values in their
      original order: the outcome of `Array.prototype.sort`. */
  function SortBy<T(!new)>(s: seq<T>, before: (T, T) -> bool): (r: seq<T>)
    ensures multiset(r) == multiset(s)
  {
    if s == [] then []
    else
      assert s == [s[0]] + s[1..];
      Insert(s[0], SortBy(s[1..], before), before)
  }

  /** The sort keeps the values it was given. */
  lemma SortedMembers<T(!new)>(s: seq<T>, before: (T, T) -> bool)
    ensures forall x :: x in SortBy(s, before) ==> x in s
  {
    forall x | x in SortBy(s, before)
      ensures x in s
    {
      assert x in multiset(SortBy(s, before));
    }
  }

  lemma {:induction false} InsertOrdered<T(!new)>(x: T, s: seq<T>, before: (T, T) -> bool)
    requires Total(before) && Transitive(before) && Ordered(s, before)
    ensures Ordered(Insert(x, s, before), before)
  {
    if s != [] && !before(x, s[0]) {
      InsertOrdered(x, s[1..], before);
      var r := Insert(x, s, before);
      assert r == [s[0]] + Insert(x, s[1..], before);
      forall j | 0 < j < |r|
        ensures before(s[0], r[j])
      {
        assert r[j] in multiset(s[1..]) + multiset{x};
        if r[j] != x {
          var k :| 0 <= k < |s[1..]| && s[1..][k] == r[j];
          assert s[k + 1] == r[j];
        }
      }
    }
  }

  /** The sort orders its result. */
  lemma {:induction false} SortOrdered<T(!new)>(s: seq<T>, before: (T, T) -> bool)
    requires Total(before) && Transitive(before)
    ensures Ordered(SortBy(s, before), before)
  {
    if s != [] {
      SortOrdered(s[1..], before);
      InsertOrdered(s[0], SortBy(s[1..], before), before);
    }
  }

  /** Directories (or folders) before files, then by name: `isDir`/`name`
      of the first value against those of the second. */
  predicate DirsFirst(le: (string, string) -> bool, dirA: bool, nameA: string, dirB: bool, nameB: string) {
    (dirA && !dirB) || (dirA == dirB && le(nameA, nameB))
  }

  // ---------------------------------------------------------------------
  // The tree
  // ---------------------------------------------------------------------

  /** An entry of the posts tree: a folder with its path and (non-empty)
      contents, or a file with its title, path and type. */
  datatype Node =
    | Folder(name: string, path: string, children: seq<Node>)
    | File(name: string, title: string, path: string, fileType: FileType)

  function NodeBefore(le: (string, string) -> bool): (Node, Node) -> bool {
    (a: Node, b: Node) => DirsFirst(le, a.Folder?, a.name, b.Folder?, b.name)
  }

  /** `basePath/name`, or just `name` at the top. */
  function Join(basePath: string, name: string): (path: string)
    ensures basePath != "" ==> StartsWith(path, basePath + "/")
  {
    if basePath != "" then basePath + "/" + name else name
  }

  /** What the sidebar relies on, at every level of a tree listed under
      `basePath`: folders first, then files, each group ordered by name;
      every path is the parent's path joined with the node's name; every
      folder holds something; every file is of a supported type and titled
      by its name without the extension. */
  ghost predicate WellFormed(nodes: seq<Node>, basePath: string, le: (string, string) -> bool)
    decreases nodes
  {
    && Ordered(nodes, NodeBefore(le))
    && forall i :: 0 <= i < |nodes| ==>
         && nodes[i].path == Join(basePath, nodes[i].name)
         && (nodes[i].File? ==>
               GetFileType(nodes[i].name) == Some(nodes[i].fileType) && nodes[i].title == DisplayName(nodes[i].name))
         && (nodes[i].Folder? ==>
               nodes[i].children != [] && WellFormed(nodes[i].children, nodes[i].path, le))
  }

  /** The number of files in a tree, at any depth. */
  function FileCount(nodes: seq<Node>): nat
    decreases nodes
  {
    if nodes == [] then 0
    else (if nodes[0].File? then 1 else FileCount(nodes[0].children)) + FileCount(nodes[1..])
  }

  lemma {:induction false} FileCountAppend(a: seq<Node>, b: seq<Node>)
    ensures FileCount(a + b) == FileCount(a) + FileCount(b)
  {
    if a == [] {
      assert a + b == b;
    } else {
      assert (a + b)[0] == a[0];
      assert (a + b)[1..] == a[1..] + b;
      FileCountAppend(a[1..], b);
    }
  }

  /** `countFiles`: walks the items, counting a file as one and a folder as
      the files inside it. */
  method CountFiles(items: seq<Node>) returns (count: nat)
    ensures count == FileCount(items)
    decreases items
  {
    count := 0;
    for i := 0 to |items|
      invariant count + FileCount(items[i..]) == FileCount(items)
    {
      assert items[i..][1..] == items[i + 1..];
      var item := items[i];
      if item.File? {
        count := count + 1;
      } else {
        var inner := CountFiles(item.children);
        count := count + inner;
      }
    }
  }

  // ---------------------------------------------------------------------
  // The build script's scan of the posts directory
  // ---------------------------------------------------------------------

  /** An entry of a directory on disk. */
  datatype FsEntry = Dir(name: string, entries: seq<FsEntry>) | Plain(name: string)

  function EntryBefore(le: (string, string) -> bool): (FsEntry, FsEntry) -> bool {
    (a: FsEntry, b: FsEntry) => DirsFirst(le, a.Dir?, a.name, b.Dir?, b.name)
  }

  lemma EntryBeforeOrder(le: (string, string) -> bool)
    requires Total(le) && Transitive(le)
    ensures Total(EntryBefore(le)) && Transitive(EntryBefore(le))
  {
    forall a: FsEntry, b: FsEntry
      ensures EntryBefore(le)(a, b) || EntryBefore(le)(b, a)
    {
      assert le(a.name, b.name) || le(b.name, a.name);
    }
    forall a: FsEntry, b: FsEntry, c: FsEntry | EntryBefore(le)(a, b) && EntryBefore(le)(b, c)
      ensures EntryBefore(le)(a, c)
    {
      if a.Dir? == b.Dir? == c.Dir? {
        assert le(a.name, b.name) && le(b.name, c.name);
      }
    }
  }

  /** The tree listed for the directory `dir` whose path is `basePath`;
      `le` is the name order (`localeCompare` for Chinese). */
  function Scan(dir: seq<FsEntry>, basePath: string, le: (string, string) -> bool): seq<Node>
    decreases dir, 1
  {
    var entries := SortBy(dir, EntryBefore(le));
    SortedMembers(dir, EntryBefore(le));
    ScanEntries(dir, entries, |entries|, basePath, le)
  }

  /** The nodes for the first `n` of the sorted `entries` of `dir`. */
  function ScanEntries(dir: seq<FsEntry>, entries: seq<FsEntry>, n: nat, basePath: string,
                       le: (string, string) -> bool): seq<Node>
    requires n <= |entries| && (forall x :: x in entries ==> x in dir)
    decreases dir, 0, n
  {
    if n == 0 then []
    else
      ScanEntries(dir, entries, n - 1, basePath, le) + Listed(dir, entries[n - 1], basePath, le)
  }

  /** What an entry of `dir` adds to the listing: a folder for a
      subdirectory with something listed in it, a file node for a supported
      file, nothing otherwise. */
  function Listed(dir: seq<FsEntry>, e: FsEntry, basePath: string, le: (string, string) -> bool): (r: seq<Node>)
    requires e in dir
    ensures |r| <= 1
    decreases dir, 0, 0
  {
    var path := Join(basePath, e.name);
    if e.Dir? then
      var children := Scan(e.entries, path, le);
      if |children| > 0 then [Folder(e.name, path, children)] else []
    else if GetFileType(e.name).Some? then
      [File(e.name, DisplayName(e.name), path, GetFileType(e.name).value)]
    else []
  }

  /** `scanDirectory`: sorts the entries, then walks them, listing each
      non-empty subdirectory (scanned in turn) and each supported file. */
  method ScanDirectory(dir: seq<FsEntry>, basePath: string, le: (string, string) -> bool) returns (items: seq<Node>)
    ensures items == Scan(dir, basePath, le)
    decreases dir, 1
  {
    var entries := SortBy(dir, EntryBefore(le));
    SortedMembers(dir, EntryBefore(le));
    items := [];
    for i := 0 to |entries|
      invariant items == ScanEntries(dir, entries, i, basePath, le)
    {
      ScanStep(dir, entries, i, basePath, le);
      var added := ListEntry(dir, entries[i], basePath, le);
      items := items + added;
    }
  }

  /** One more entry adds what it lists after what the entries before it listed. */
  lemma ScanStep(dir: seq<FsEntry>, entries: seq<FsEntry>, i: nat, basePath: string, le: (string, string) -> bool)
    requires i < |entries| && (forall x :: x in entries ==> x in dir)
    ensures entries[i] in dir
    ensures ScanEntries(dir, entries, i + 1, basePath, le)
         == ScanEntries(dir, entries, i, basePath, le) + Listed(dir, entries[i], basePath, le)
  {
  }

  /** The body of `scanDirectory`'s loop for one entry: a subdirectory is
      scanned in turn and listed when something is listed in it, a file is
      listed when its type is supported. */
  method ListEntry(dir: seq<FsEntry>, entry: FsEntry, basePath: string, le: (string, string) -> bool)
    returns (added: seq<Node>)
    requires entry in dir
    ensures added == Listed(dir, entry, basePath, le)
    decreases dir, 0
  {
    var relativePath := Join(basePath, entry.name);
    added := [];
    if entry.Dir? {
      var children := ScanDirectory(entry.entries, relativePath, le);
      if |children| > 0 {
        added := [Folder(entry.name, relativePath, children)];
      }
    } else {
      var fileType := GetFileType(entry.name);
      if fileType.Some? {
        added := [File(entry.name, DisplayName(entry.name), relativePath, fileType.value)];
      }
    }
  }

  /** Each node listed for the first `n` entries comes from one of them,
      with the same kind and name. */
  lemma {:induction false} ScanEntriesFrom(dir: seq<FsEntry>, entries: seq<FsEntry>, n: nat, basePath: string,
                                           le: (string, string) -> bool)
    requires n <= |entries| && (forall x :: x in entries ==> x in dir)
    ensures forall x :: x in ScanEntries(dir, entries, n, basePath, le) ==>
      exists k :: 0 <= k < n && x.Folder? == entries[k].Dir? && x.name == entries[k].name
    decreases n
  {
    if n > 0 {
      ScanEntriesFrom(dir, entries, n - 1, basePath, le);
    }
  }

  /** The scan lists a well-formed tree: ordered, with joined paths, no
      empty folders and only supported files. */
  lemma {:induction false} ScanWellFormed(dir: seq<FsEntry>, basePath: string, le: (string, string) -> bool)
    requires Total(le) && Transitive(le)
    ensures WellFormed(Scan(dir, basePath, le), basePath, le)
    decreases dir, 1
  {
    var entries := SortBy(dir, EntryBefore(le));
    SortedMembers(dir, EntryBefore(le));
    EntryBeforeOrder(le);
    SortOrdered(dir, EntryBefore(le));
    ScanEntriesWellFormed(dir, entries, |entries|, basePath, le);
  }

  lemma {:induction false} ScanEntriesWellFormed(dir: seq<FsEntry>, entries: seq<FsEntry>, n: nat, basePath: string,
                                                 le: (string, string) -> bool)
    requires Total(le) && Transitive(le)
    requires n <= |entries| && (forall x :: x in entries ==> x in dir)
    requires Ordered(entries, EntryBefore(le))
    ensures WellFormed(ScanEntries(dir, entries, n, basePath, le), basePath, le)
    decreases dir, 0, n
  {
    if n > 0 {
      var e := entries[n - 1];
      var prefix := ScanEntries(dir, entries, n - 1, basePath, le);
      var last := Listed(dir, e, basePath, le);
      ScanEntriesWellFormed(dir, entries, n - 1, basePath, le);
      ScanEntriesFrom(dir, entries, n - 1, basePath, le);
      ListedWellFormed(dir, e, basePath, le);
      forall x | x in prefix && last != []
        ensures NodeBefore(le)(x, last[0])
      {
        var k :| 0 <= k < n - 1 && x.Folder? == entries[k].Dir? && x.name == entries[k].name;
        assert EntryBefore(le)(entries[k], entries[n - 1]);
      }
      AppendWellFormed(prefix, last, basePath, le);
    }
  }

  /** What one entry adds is well-formed, and is a node of the entry's
      kind and name. */
  lemma {:induction false} ListedWellFormed(dir: seq<FsEntry>, e: FsEntry, basePath: string, le: (string, string) -> bool)
    requires Total(le) && Transitive(le)
    requires e in dir
    ensures WellFormed(Listed(dir, e, basePath, le), basePath, le)
    ensures Listed(dir, e, basePath, le) != [] ==>
      Listed(dir, e, basePath, le)[0].Folder? == e.Dir? && Listed(dir, e, basePath, le)[0].name == e.name
    decreases dir, 0, 0
  {
    if e.Dir? {
      ScanWellFormed(e.entries, Join(basePath, e.name), le);
    }
  }

  /** A well-formed list followed by at most one well-formed node that
      comes after every node of the list is well-formed. */
  lemma AppendWellFormed(a: seq<Node>, last: seq<Node>, basePath: string, le: (string, string) -> bool)
    requires |last| <= 1
    requires WellFormed(a, basePath, le) && WellFormed(last, basePath, le)
    requires forall x :: x in a && last != [] ==> NodeBefore(le)(x, last[0])
    ensures WellFormed(a + last, basePath, le)
  {
    var s := a + last;
    forall i, j | 0 <= i < j < |s|
      ensures NodeBefore(le)(s[i], s[j])
    {
      if j >= |a| {
        assert s[i] in a;
      }
    }
    forall i | 0 <= i < |s|
      ensures s[i].Folder? ==> s[i].children != [] && WellFormed(s[i].children, s[i].path, le)
    {
      if i >= |a| {
        assert s[i] == last[i - |a|];
      } else {
        assert s[i] == a[i];
      }
    }
  }

  // ---------------------------------------------------------------------
  // Nothing is lost
  // ---------------------------------------------------------------------

  /** The number of supported files under a directory, at any depth. */
  function SupportedCount(dir: seq<FsEntry>): nat
    decreases dir
  {
    if dir == [] then 0
    else
      (if dir[0].Dir? then SupportedCount(dir[0].entries) else if GetFileType(dir[0].name).Some? then 1 else 0)
      + SupportedCount(dir[1..])
  }

  lemma {:induction false} SupportedCountAppend(a: seq<FsEntry>, b: seq<FsEntry>)
    ensures SupportedCount(a + b) == SupportedCount(a) + SupportedCount(b)
  {
    if a == [] {
      assert a + b == b;
    } else {
      assert (a + b)[0] == a[0];
      assert (a + b)[1..] == a[1..] + b;
      SupportedCountAppend(a[1..], b);
    }
  }

  lemma {:induction false} SupportedCountInsert(x: FsEntry, s: seq<FsEntry>, before: (FsEntry, FsEntry) -> bool)
    ensures SupportedCount(Insert(x, s, before)) == SupportedCount([x]) + SupportedCount(s)
  {
    if s != [] {
      if before(x, s[0]) {
        SupportedCountAppend([x], s);
      } else {
        SupportedCountInsert(x, s[1..], before);
        SupportedCountAppend([s[0]], Insert(x, s[1..], before));
        SupportedCountAppend([s[0]], s[1..]);
        assert [s[0]] + s[1..] == s;
      }
    }
  }

  lemma {:induction false} SupportedCountSort(s: seq<FsEntry>, before: (FsEntry, FsEntry) -> bool)
    ensures SupportedCount(SortBy(s, before)) == SupportedCount(s)
  {
    if s != [] {
      SupportedCountSort(s[1..], before);
      SupportedCountInsert(s[0], SortBy(s[1..], before), before);
      SupportedCountAppend([s[0]], s[1..]);
      assert [s[0]] + s[1..] == s;
    }
  }

  /** Every supported file on disk is listed once: the listed tree holds as
      many files as the directory holds supported ones. */
  lemma {:induction false} ScanCountsEveryFile(dir: seq<FsEntry>, basePath: string, le: (string, string) -> bool)
    ensures FileCount(Scan(dir, basePath, le)) == SupportedCount(dir)
    decreases dir, 1
  {
    var entries := SortBy(dir, EntryBefore(le));
    SortedMembers(dir, EntryBefore(le));
    ScanEntriesCount(dir, entries, |entries|, basePath, le);
    assert entries[..|entries|] == entries;
    SupportedCountSort(dir, EntryBefore(le));
  }

  lemma {:induction false} ScanEntriesCount(dir: seq<FsEntry>, entries: seq<FsEntry>, n: nat, basePath: string,
                                            le: (string, string) -> bool)
    requires n <= |entries| && (forall x :: x in entries ==> x in dir)
    ensures FileCount(ScanEntries(dir, entries, n, basePath, le)) == SupportedCount(entries[..n])
    decreases dir, 0, n, 1
  {
    if n > 0 {
      ScanEntriesCount(dir, entries, n - 1, basePath, le);
      ScanCountStep(dir, entries, n, basePath, le);
      SupportedCountPrefix(entries, n);
    }
  }

  /** The `n`-th entry adds the files it holds to the count. */
  lemma ScanCountStep(dir: seq<FsEntry>, entries: seq<FsEntry>, n: nat, basePath: string,
                      le: (string, string) -> bool)
    requires 0 < n <= |entries| && (forall x :: x in entries ==> x in dir)
    ensures FileCount(ScanEntries(dir, entries, n, basePath, le))
         == FileCount(ScanEntries(dir, entries, n - 1, basePath, le)) + SupportedCount([entries[n - 1]])
    decreases dir, 0, n, 0
  {
    ScanStep(dir, entries, n - 1, basePath, le);
    ListedCount(dir, entries[n - 1], basePath, le);
    FileCountAppend(ScanEntries(dir, entries, n - 1, basePath, le), Listed(dir, entries[n - 1], basePath, le));
  }

  lemma SupportedCountPrefix(s: seq<FsEntry>, n: nat)
    requires 0 < n <= |s|
    ensures SupportedCount(s[..n]) == SupportedCount(s[..n - 1]) + SupportedCount([s[n - 1]])
  {
    assert s[..n] == s[..n - 1] + [s[n - 1]];
    SupportedCountAppend(s[..n - 1], [s[n - 1]]);
  }

  lemma {:induction false} ListedCount(dir: seq<FsEntry>, e: FsEntry, basePath: string, le: (string, string) -> bool)
    requires e in dir
    ensures FileCount(Listed(dir, e, basePath, le)) == SupportedCount([e])
    decreases dir, 0, 0
  {
    var path := Join(basePath, e.name);
    var last := Listed(dir, e, basePath, le);
    assert [e][1..] == [];
    if last != [] {
      assert last[1..] == [];
    }
    if e.Dir? {
      ScanCountsEveryFile(e.entries, path, le);
    }
  }
}
