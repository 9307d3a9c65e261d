/** The in-memory directory tree (src/directory_tree.rs): one recursive scan
    from a root records every file under its file name and every readable
    directory with its entries, skipping calibration and tooling directories;
    lookups, the FITS listing and the statistics then read those maps.

    The filesystem is a finite tree value: a directory may be unreadable, a
    single entry may fail to be read, and a file name may not be valid
    UTF-8. Hash-map iteration order is an explicit enumeration of the keys.
    Times are in nanoseconds. */
module DirectoryTree {
  import opened Wrappers
  import opened Strings
  import opened Collections

  // ---------------------------------------------------------------------
  // The filesystem

  /** A file (whose name may or may not be valid UTF-8) or a directory, which
      may refuse to be listed. */
  datatype FsNode = FileNode(utf8Name: bool) | DirNode(readable: bool, entries: seq<FsEntry>)

  /** One listing entry: either it fails to be read, or it names a node. */
  datatype FsEntry = BrokenEntry | Entry(name: string, node: FsNode)

  /** A name a directory listing can produce: non-empty, no separator, not `.` or `..`. */
  predicate ValidName(name: string) {
    name != [] && '/' !in name && name != "." && name != ".."
  }

  /** Every entry name in the tree is one a listing can produce. */
  predicate WellFormed(node: FsNode)
    decreases node
  {
    node.DirNode? ==>
      forall e :: e in node.entries && e.Entry? ==> ValidName(e.name) && WellFormed(e.node)
  }

  /** The directory names the scan never enters. */
  const SkippedNames: set<string> := {"DARK", "FLAT", "BIAS", ".git", "node_modules", "target", ".cache"}

  /** The path without its trailing separators. */
  function TrimTrailingSlashes(p: string): (t: string)
    ensures StartsWith(p, t)
    ensures t == [] || t[|t| - 1] != '/'
  {
    if p != [] && p[|p| - 1] == '/' then TrimTrailingSlashes(p[..|p| - 1]) else p
  }

  /** `Path::file_name`: the last component, none for a root or a `..` ending. */
  function FileName(p: string): (r: Option<string>)
    ensures r.Some? ==> r.value != [] && r.value != ".."
  {
    var seg := BaseName(TrimTrailingSlashes(p));
    if seg == [] || seg == ".." then None else Some(seg)
  }

  /** The file name of an entry's path is the entry's name. */
  lemma FileNameOfJoin(dir: string, name: string)
    requires ValidName(name)
    ensures FileName(JoinPath(dir, name)) == Some(name)
  {
    var p := JoinPath(dir, name);
    assert p[|p| - 1] == name[|name| - 1];
    assert name[|name| - 1] in name;
    BaseNameOfJoin(dir, name);
  }

  /** A directory the scan skips, judged by its path's file name. */
  predicate Skipped(dir: string) {
    FileName(dir).Some? && FileName(dir).value in SkippedNames
  }

  // ---------------------------------------------------------------------
  // What one scan does, as a function of the tree

  /** The four accumulators `scan_directory` threads through its recursion. */
  datatype ScanState = ScanState(fileMap: map<string, seq<string>>, dirMap: map<string, seq<string>>,
                                 totalFiles: nat, totalDirs: nat)

  const EmptyScan := ScanState(map[], map[], 0, 0)

  /** The paths recorded under `name` so far, none when it is absent. */
  function Lookup(m: map<string, seq<string>>, name: string): seq<string> {
    if name in m then m[name] else []
  }

  /** Recording a file: its path is appended to its name's list and counted. */
  function Record(s: ScanState, name: string, path: string): ScanState {
    s.(fileMap := s.fileMap[name := Lookup(s.fileMap, name) + [path]], totalFiles := s.totalFiles + 1)
  }

  /** `scan_directory`: a skipped or unlistable directory leaves everything unchanged;
      otherwise it is counted, its entries are scanned in order, and its listing is
      stored under its path. */
  function ScanDir(dir: string, node: FsNode, s: ScanState): ScanState
    decreases node, 1, 0
  {
    if Skipped(dir) || node.FileNode? || !node.readable then s
    else
      var after := ScanEntries(dir, node, |node.entries|, s.(totalDirs := s.totalDirs + 1));
      after.(dirMap := after.dirMap[dir := Listing(dir, node.entries)])
  }

  /** The first `i` entries of a listed directory, scanned in order. */
  function ScanEntries(dir: string, node: FsNode, i: nat, s: ScanState): ScanState
    requires node.DirNode? && i <= |node.entries|
    decreases node, 0, i
  {
    if i == 0 then s
    else
      assert node.entries[i - 1] in node.entries;
      ScanEntry(dir, node.entries[i - 1], ScanEntries(dir, node, i - 1, s))
  }

  /** One entry of a listed directory: a subdirectory is scanned recursively, a file with
      a UTF-8 name is recorded, and an entry that fails to be read is passed over. */
  function ScanEntry(dir: string, e: FsEntry, s: ScanState): ScanState
    decreases e, 0, 0
  {
    if e.BrokenEntry? then s
    else if e.node.DirNode? then ScanDir(JoinPath(dir, e.name), e.node, s)
    else if e.node.utf8Name then Record(s, e.name, JoinPath(dir, e.name))
    else s
  }

  /** The paths of the entries that could be read, in listing order. */
  function Listing(dir: string, entries: seq<FsEntry>): (paths: seq<string>)
    ensures |paths| <= |entries|
  {
    if entries == [] then []
    else
      var init := Listing(dir, entries[..|entries| - 1]);
      var e := entries[|entries| - 1];
      if e.BrokenEntry? then init else init + [JoinPath(dir, e.name)]
  }

  // ---------------------------------------------------------------------
  // The scan itself

  /** The mutable accumulators of one build. */
  class Scanner {
    var fileMap: map<string, seq<string>>
    var dirMap: map<string, seq<string>>
    var totalFiles: nat
    var totalDirs: nat

    function State(): ScanState
      reads this
    {
      ScanState(fileMap, dirMap, totalFiles, totalDirs)
    }

    constructor ()
      ensures State() == EmptyScan
    {
      fileMap, dirMap, totalFiles, totalDirs := map[], map[], 0, 0;
    }

    /** `scan_directory`, recursing into subdirectories as it lists each one. */
    method ScanDirectory(dir: string, node: FsNode)
      modifies this
      ensures State() == ScanDir(dir, node, old(State()))
      decreases node, 1
    {
      if Skipped(dir) {
        return;
      }
      if node.FileNode? || !node.readable {
        return;
      }
      var entries := node.entries;
      var contents: seq<string> := [];
      totalDirs := totalDirs + 1;
      ghost var start := State();
      for i := 0 to |entries|
        invariant State() == ScanEntries(dir, node, i, start)
        invariant contents == Listing(dir, entries[..i])
      {
        assert entries[..i + 1][..i] == entries[..i];
        var e := entries[i];
        assert e in node.entries;
        ScanOneEntry(dir, e);
        if !e.BrokenEntry? {
          contents := contents + [JoinPath(dir, e.name)];
        }
      }
      assert entries[..|entries|] == entries;
      dirMap := dirMap[dir := contents];
    }

    /** One entry of a listing: recurse into a subdirectory, record a file. */
    method ScanOneEntry(dir: string, e: FsEntry)
      modifies this
      ensures State() == ScanEntry(dir, e, old(State()))
      decreases e, 0
    {
      if e.BrokenEntry? {
        return;
      }
      var path := JoinPath(dir, e.name);
      if e.node.DirNode? {
        ScanDirectory(path, e.node);
      } else if e.node.utf8Name {
        fileMap := fileMap[e.name := Lookup(fileMap, e.name) + [path]];
        totalFiles := totalFiles + 1;
      }
    }
  }

  // ---------------------------------------------------------------------
  // The built tree

  datatype DirectoryTree = DirectoryTree(fileMap: map<string, seq<string>>, dirMap: map<string, seq<string>>,
                                         createdAt: int, root: string)

  /** The tree `build` produces from `root` at time `now`. */
  function BuildSpec(root: string, node: FsNode, now: int): DirectoryTree {
    var s := ScanDir(root, node, EmptyScan);
    DirectoryTree(s.fileMap, s.dirMap, now, root)
  }

  /** `DirectoryTree::build`: scan from the root into empty maps. */
  method Build(root: string, node: FsNode, now: int) returns (tree: DirectoryTree)
    ensures tree == BuildSpec(root, node, now)
    ensures tree.fileMap == AddAll(map[], Files(root, node))
  {
    var scanner := new Scanner();
    scanner.ScanDirectory(root, node);
    tree := DirectoryTree(scanner.fileMap, scanner.dirMap, now, root);
    ScanRecordsFiles(root, node, EmptyScan);
  }

  // ---------------------------------------------------------------------
  // The files a scan records

  datatype FileRecord = FileRecord(name: string, path: string)

  /** Every file the scan reaches, in the order it reaches them: the UTF-8-named files
      of readable, non-skipped directories, depth first. */
  function Files(dir: string, node: FsNode): seq<FileRecord>
    decreases node, 1, 0
  {
    if Skipped(dir) || node.FileNode? || !node.readable then []
    else EntryFiles(dir, node, |node.entries|)
  }

  function EntryFiles(dir: string, node: FsNode, i: nat): seq<FileRecord>
    requires node.DirNode? && i <= |node.entries|
    decreases node, 0, i
  {
    if i == 0 then []
    else
      assert node.entries[i - 1] in node.entries;
      EntryFiles(dir, node, i - 1) + FilesOfEntry(dir, node.entries[i - 1])
  }

  function FilesOfEntry(dir: string, e: FsEntry): seq<FileRecord>
    decreases e, 0, 0
  {
    if e.BrokenEntry? then []
    else if e.node.DirNode? then Files(JoinPath(dir, e.name), e.node)
    else if e.node.utf8Name then [FileRecord(e.name, JoinPath(dir, e.name))]
    else []
  }

  /** Recording each file of `rs`, in order, into `m`. */
  function AddAll(m: map<string, seq<string>>, rs: seq<FileRecord>): map<string, seq<string>> {
    if rs == [] then m
    else
      var r := rs[|rs| - 1];
      var prev := AddAll(m, rs[..|rs| - 1]);
      prev[r.name := Lookup(prev, r.name) + [r.path]]
  }

  /** The paths of the records named `name`, in order. */
  function PathsNamed(rs: seq<FileRecord>, name: string): seq<string> {
    if rs == [] then []
    else PathsNamed(rs[..|rs| - 1], name) + (if rs[|rs| - 1].name == name then [rs[|rs| - 1].path] else [])
  }

  /** Scanning adds exactly the reached files to the file map, each under its name, and
      counts them. */
  lemma {:induction false} ScanRecordsFiles(dir: string, node: FsNode, s: ScanState)
    ensures ScanDir(dir, node, s).fileMap == AddAll(s.fileMap, Files(dir, node))
    ensures ScanDir(dir, node, s).totalFiles == s.totalFiles + |Files(dir, node)|
    decreases node, 1, 0
  {
    if !(Skipped(dir) || node.FileNode? || !node.readable) {
      ScanEntriesRecordFiles(dir, node, |node.entries|, s.(totalDirs := s.totalDirs + 1));
    } else {
      assert Files(dir, node) == [];
    }
  }

  lemma {:induction false} ScanEntriesRecordFiles(dir: string, node: FsNode, i: nat, s: ScanState)
    requires node.DirNode? && i <= |node.entries|
    ensures ScanEntries(dir, node, i, s).fileMap == AddAll(s.fileMap, EntryFiles(dir, node, i))
    ensures ScanEntries(dir, node, i, s).totalFiles == s.totalFiles + |EntryFiles(dir, node, i)|
    decreases node, 0, i
  {
    if i > 0 {
      var e := node.entries[i - 1];
      assert e in node.entries;
      var prev := ScanEntries(dir, node, i - 1, s);
      assert ScanEntries(dir, node, i, s) == ScanEntry(dir, e, prev);
      assert EntryFiles(dir, node, i) == EntryFiles(dir, node, i - 1) + FilesOfEntry(dir, e);
      ScanEntriesRecordFiles(dir, node, i - 1, s);
      ScanEntryRecordsFiles(dir, e, prev);
      AddAllAppend(s.fileMap, EntryFiles(dir, node, i - 1), FilesOfEntry(dir, e));
    }
  }

  lemma {:induction false} ScanEntryRecordsFiles(dir: string, e: FsEntry, s: ScanState)
    ensures ScanEntry(dir, e, s).fileMap == AddAll(s.fileMap, FilesOfEntry(dir, e))
    ensures ScanEntry(dir, e, s).totalFiles == s.totalFiles + |FilesOfEntry(dir, e)|
    decreases e, 0, 0
  {
    if e.Entry? && e.node.DirNode? {
      ScanRecordsFiles(JoinPath(dir, e.name), e.node, s);
    } else if e.Entry? && e.node.utf8Name {
      var r := FileRecord(e.name, JoinPath(dir, e.name));
      assert [r][..0] == [];
    }
  }

  lemma {:induction false} AddAllAppend(m: map<string, seq<string>>, a: seq<FileRecord>, b: seq<FileRecord>)
    ensures AddAll(m, a + b) == AddAll(AddAll(m, a), b)
    decreases |b|
  {
    if b == [] {
      assert a + b == a;
    } else {
      var c := a + b;
      assert c[..|c| - 1] == a + b[..|b| - 1];
      assert c[|c| - 1] == b[|b| - 1];
      AddAllAppend(m, a, b[..|b| - 1]);
    }
  }

  /** After recording `rs`, a name's list is its old list followed by the paths recorded
      under it, and a name is a key exactly when it was one or some record carries it. */
  lemma {:induction false} AddAllLookup(m: map<string, seq<string>>, rs: seq<FileRecord>, name: string)
    ensures Lookup(AddAll(m, rs), name) == Lookup(m, name) + PathsNamed(rs, name)
    ensures name in AddAll(m, rs) <==> name in m || PathsNamed(rs, name) != []
  {
    if rs != [] {
      AddAllLookup(m, rs[..|rs| - 1], name);
    }
  }

  /** Every recorded file is recorded under its own file name, and that name is never
      one of a skipped directory's entries. */
  lemma {:induction false} FilesNamedByPath(dir: string, node: FsNode)
    requires WellFormed(node)
    ensures forall r :: r in Files(dir, node) ==> FileName(r.path) == Some(r.name)
    decreases node, 1, 0
  {
    if !(Skipped(dir) || node.FileNode? || !node.readable) {
      EntryFilesNamedByPath(dir, node, |node.entries|);
    }
  }

  lemma {:induction false} EntryFilesNamedByPath(dir: string, node: FsNode, i: nat)
    requires node.DirNode? && i <= |node.entries| && WellFormed(node)
    ensures forall r :: r in EntryFiles(dir, node, i) ==> FileName(r.path) == Some(r.name)
    decreases node, 0, i
  {
    if i > 0 {
      var e := node.entries[i - 1];
      assert e in node.entries;
      EntryFilesNamedByPath(dir, node, i - 1);
      FilesOfEntryNamedByPath(dir, e);
    }
  }

  lemma {:induction false} FilesOfEntryNamedByPath(dir: string, e: FsEntry)
    requires e.Entry? ==> ValidName(e.name) && WellFormed(e.node)
    ensures forall r :: r in FilesOfEntry(dir, e) ==> FileName(r.path) == Some(r.name)
    decreases e, 0, 0
  {
    if e.Entry? {
      if e.node.DirNode? {
        FilesNamedByPath(JoinPath(dir, e.name), e.node);
      } else {
        FileNameOfJoin(dir, e.name);
      }
    }
  }

  /** A skipped directory and an unlistable one contribute nothing: no file, no
      directory, no count. */
  lemma SkippedOrUnreadableContributesNothing(dir: string, node: FsNode, s: ScanState)
    requires Skipped(dir) || (node.DirNode? && !node.readable)
    ensures ScanDir(dir, node, s) == s
    ensures Files(dir, node) == []
  {
  }

  /** An entry named like a calibration or tooling directory is never entered. */
  lemma SkippedChildContributesNothing(dir: string, name: string, child: FsNode, s: ScanState)
    requires ValidName(name) && name in SkippedNames
    ensures ScanDir(JoinPath(dir, name), child, s) == s
    ensures Files(JoinPath(dir, name), child) == []
  {
    FileNameOfJoin(dir, name);
  }

  /** The directory map never gains more entries than directories are counted: a scan
      that starts with `slack` counted directories to spare ends with at least as many. */
  lemma {:induction false} DirectoriesCounted(dir: string, node: FsNode, s: ScanState, slack: nat)
    requires |s.dirMap.Keys| + slack <= s.totalDirs
    ensures |ScanDir(dir, node, s).dirMap.Keys| + slack <= ScanDir(dir, node, s).totalDirs
    ensures ScanDir(dir, node, s).totalDirs >= s.totalDirs
    decreases node, 1, 0
  {
    if !(Skipped(dir) || node.FileNode? || !node.readable) {
      var s1 := s.(totalDirs := s.totalDirs + 1);
      EntriesDirectoriesCounted(dir, node, |node.entries|, s1, slack + 1);
      var after := ScanEntries(dir, node, |node.entries|, s1);
      assert after.dirMap[dir := Listing(dir, node.entries)].Keys == after.dirMap.Keys + {dir};
    }
  }

  lemma {:induction false} EntriesDirectoriesCounted(dir: string, node: FsNode, i: nat, s: ScanState, slack: nat)
    requires node.DirNode? && i <= |node.entries|
    requires |s.dirMap.Keys| + slack <= s.totalDirs
    ensures |ScanEntries(dir, node, i, s).dirMap.Keys| + slack <= ScanEntries(dir, node, i, s).totalDirs
    ensures ScanEntries(dir, node, i, s).totalDirs >= s.totalDirs
    decreases node, 0, i
  {
    if i > 0 {
      var e := node.entries[i - 1];
      assert e in node.entries;
      var prev := ScanEntries(dir, node, i - 1, s);
      assert ScanEntries(dir, node, i, s) == ScanEntry(dir, e, prev);
      EntriesDirectoriesCounted(dir, node, i - 1, s, slack);
      if e.Entry? && e.node.DirNode? {
        DirectoriesCounted(JoinPath(dir, e.name), e.node, prev, slack);
      }
    }
  }

  // ---------------------------------------------------------------------
  // Queries

  /** `find_file`: the recorded paths of `filename`, none when it was never seen. */
  function FindFile(tree: DirectoryTree, filename: string): (r: Option<seq<string>>)
    ensures r.Some? <==> filename in tree.fileMap
  {
    if filename in tree.fileMap then Some(tree.fileMap[filename]) else None
  }

  /** Looking a name up in a built tree gives every reached file of that name, in scan
      order, and nothing when no reached file has it. */
  lemma FindFileFindsAll(root: string, node: FsNode, now: int, filename: string)
    ensures FindFile(BuildSpec(root, node, now), filename) ==
      (if PathsNamed(Files(root, node), filename) == [] then None else Some(PathsNamed(Files(root, node), filename)))
  {
    var rs := Files(root, node);
    ScanRecordsFiles(root, node, EmptyScan);
    AddAllLookup(map[], rs, filename);
    var m := AddAll(map[], rs);
    assert BuildSpec(root, node, now).fileMap == m;
    assert Lookup(m, filename) == PathsNamed(rs, filename);
  }

  /** A path is returned for a name only if it is a reached file whose path ends in that
      name. */
  lemma {:induction false} PathsNamedMembers(rs: seq<FileRecord>, name: string, p: string)
    ensures p in PathsNamed(rs, name) <==> FileRecord(name, p) in rs
  {
    if rs != [] {
      PathsNamedMembers(rs[..|rs| - 1], name, p);
      assert rs == rs[..|rs| - 1] + [rs[|rs| - 1]];
    }
  }

  /** The key enumeration a hash map's iteration yields. */
  predicate EnumeratesKeys(keys: seq<string>, m: map<string, seq<string>>) {
    Distinct(keys) && Elems(keys) == m.Keys
  }

  /** `find_files_matching`: the lists of the names `accept` holds for, concatenated in
      key-iteration order. */
  function FindFilesMatching(tree: DirectoryTree, keys: seq<string>, accept: string -> bool): (paths: seq<string>)
    requires Elems(keys) <= tree.fileMap.Keys
  {
    if keys == [] then []
    else
      var k := keys[|keys| - 1];
      assert k in Elems(keys);
      FindFilesMatching(tree, keys[..|keys| - 1], accept) + (if accept(k) then tree.fileMap[k] else [])
  }

  /** The FITS extensions `get_fits_files` accepts, case-sensitively. */
  predicate IsFitsName(name: string) {
    EndsWith(name, ".fits") || EndsWith(name, ".fit") || EndsWith(name, ".FIT")
    || EndsWith(name, ".FITS") || EndsWith(name, ".fts")
  }

  /** `get_fits_files`. */
  function GetFitsFiles(tree: DirectoryTree, keys: seq<string>): seq<string>
    requires EnumeratesKeys(keys, tree.fileMap)
  {
    FindFilesMatching(tree, keys, IsFitsName)
  }

  /** In a built tree, a path is listed by a name filter exactly when it is a reached
      file whose name the filter accepts. */
  lemma FindFilesMatchingMembers(root: string, node: FsNode, now: int, keys: seq<string>,
                                 accept: string -> bool, p: string)
    requires EnumeratesKeys(keys, BuildSpec(root, node, now).fileMap)
    ensures p in FindFilesMatching(BuildSpec(root, node, now), keys, accept) <==>
      exists r :: r in Files(root, node) && r.path == p && accept(r.name)
  {
    var tree := BuildSpec(root, node, now);
    var rs := Files(root, node);
    ScanRecordsFiles(root, node, EmptyScan);
    if p in FindFilesMatching(tree, keys, accept) {
      var k := MatchingKeyOf(tree, keys, accept, p);
      AddAllLookup(map[], rs, k);
      PathsNamedMembers(rs, k, p);
      assert FileRecord(k, p) in rs;
    }
    if exists r :: r in rs && r.path == p && accept(r.name) {
      var r :| r in rs && r.path == p && accept(r.name);
      PathsNamedMembers(rs, r.name, p);
      AddAllLookup(map[], rs, r.name);
      assert r.name in Elems(keys);
      MatchingKeyListed(tree, keys, accept, r.name, p);
    }
  }

  lemma {:induction false} MatchingKeyOf(tree: DirectoryTree, keys: seq<string>, accept: string -> bool, p: string)
    returns (k: string)
    requires Elems(keys) <= tree.fileMap.Keys
    requires p in FindFilesMatching(tree, keys, accept)
    ensures k in tree.fileMap && accept(k) && p in tree.fileMap[k]
  {
    var last := keys[|keys| - 1];
    assert last in Elems(keys);
    var init := keys[..|keys| - 1];
    assert Elems(init) <= Elems(keys);
    if p in FindFilesMatching(tree, init, accept) {
      k := MatchingKeyOf(tree, init, accept, p);
    } else {
      k := last;
    }
  }

  lemma {:induction false} MatchingKeyListed(tree: DirectoryTree, keys: seq<string>, accept: string -> bool,
                                             k: string, p: string)
    requires Elems(keys) <= tree.fileMap.Keys
    requires k in Elems(keys) && accept(k) && p in tree.fileMap[k]
    ensures p in FindFilesMatching(tree, keys, accept)
  {
    var last := keys[|keys| - 1];
    assert last in Elems(keys);
    var init := keys[..|keys| - 1];
    assert Elems(init) <= Elems(keys);
    if k != last {
      assert k in Elems(init);
      MatchingKeyListed(tree, init, accept, k, p);
    }
  }

  // ---------------------------------------------------------------------
  // Statistics

  datatype DirectoryTreeStats = DirectoryTreeStats(totalFiles: nat, uniqueFilenames: nat, totalDirectories: nat,
                                                   ageNanos: nat, root: string)

  /** The summed lengths of the lists of `keys`. */
  function SumLengths(m: map<string, seq<string>>, keys: seq<string>): nat {
    if keys == [] then 0 else SumLengths(m, keys[..|keys| - 1]) + |Lookup(m, keys[|keys| - 1])|
  }

  /** `SystemTime::elapsed`, zero when the clock has gone back. */
  function Age(createdAt: int, now: int): nat {
    if now >= createdAt then now - createdAt else 0
  }

  /** `stats`. */
  function Stats(tree: DirectoryTree, keys: seq<string>, now: int): (st: DirectoryTreeStats)
    requires EnumeratesKeys(keys, tree.fileMap)
    ensures st.uniqueFilenames == |tree.fileMap.Keys| && st.totalDirectories == |tree.dirMap.Keys|
  {
    DistinctCardinality(keys);
    DirectoryTreeStats(SumLengths(tree.fileMap, keys), |keys|, |tree.dirMap.Keys|, Age(tree.createdAt, now), tree.root)
  }

  /** `is_older_than`: strictly more than `maxAge` has passed since the build. */
  predicate IsOlderThan(tree: DirectoryTree, maxAge: nat, now: int) {
    Age(tree.createdAt, now) > maxAge
  }

  /** For a built tree, the file total is the number of reached files and there are no
      more distinct names than files. */
  lemma StatsOfBuild(root: string, node: FsNode, now: int, keys: seq<string>, later: int)
    requires EnumeratesKeys(keys, BuildSpec(root, node, now).fileMap)
    ensures Stats(BuildSpec(root, node, now), keys, later).totalFiles == |Files(root, node)|
    ensures Stats(BuildSpec(root, node, now), keys, later).uniqueFilenames <= |Files(root, node)|
  {
    var rs := Files(root, node);
    var m := BuildSpec(root, node, now).fileMap;
    ScanRecordsFiles(root, node, EmptyScan);
    forall k | k in keys ensures |Lookup(m, k)| == |PathsNamed(rs, k)| && PathsNamed(rs, k) != [] {
      AddAllLookup(map[], rs, k);
      assert k in Elems(keys);
    }
    forall r | r in rs ensures r.name in keys {
      AddAllLookup(map[], rs, r.name);
      PathsNamedMembers(rs, r.name, r.path);
      assert r.name in Elems(keys);
    }
    SumOfPathsNamed(m, keys, rs);
    SumAtLeastCount(m, keys);
  }

  /** When every record's name is listed once in `keys` and each key holds that name's
      paths, the lengths add up to the number of records. */
  lemma {:induction false} SumOfPathsNamed(m: map<string, seq<string>>, keys: seq<string>, rs: seq<FileRecord>)
    requires Distinct(keys)
    requires forall k :: k in keys ==> |Lookup(m, k)| == |PathsNamed(rs, k)|
    requires forall r :: r in rs ==> r.name in keys
    ensures SumLengths(m, keys) == |rs|
  {
    SumMatchesCount(m, keys, rs);
    CountNamedAll(keys, rs);
  }

  /** The number of records of `rs` named by one of `keys`. */
  function CountNamed(keys: seq<string>, rs: seq<FileRecord>): nat {
    if keys == [] then 0 else CountNamed(keys[..|keys| - 1], rs) + |PathsNamed(rs, keys[|keys| - 1])|
  }

  lemma {:induction false} SumMatchesCount(m: map<string, seq<string>>, keys: seq<string>, rs: seq<FileRecord>)
    requires forall k :: k in keys ==> |Lookup(m, k)| == |PathsNamed(rs, k)|
    ensures SumLengths(m, keys) == CountNamed(keys, rs)
  {
    if keys != [] {
      SumMatchesCount(m, keys[..|keys| - 1], rs);
    }
  }

  /** Distinct keys covering every record's name count every record once. */
  lemma {:induction false} CountNamedAll(keys: seq<string>, rs: seq<FileRecord>)
    requires Distinct(keys)
    requires forall r :: r in rs ==> r.name in keys
    ensures CountNamed(keys, rs) == |rs|
  {
    if rs == [] {
      CountNamedNone(keys);
    } else {
      var init := rs[..|rs| - 1];
      var r := rs[|rs| - 1];
      assert rs == init + [r];
      assert r in rs;
      assert forall x :: x in init ==> x in rs;
      CountNamedAll(keys, init);
      CountNamedSnoc(keys, init, r);
      OccursOnce(keys, r.name);
    }
  }

  lemma {:induction false} CountNamedNone(keys: seq<string>)
    ensures CountNamed(keys, []) == 0
  {
    if keys != [] {
      CountNamedNone(keys[..|keys| - 1]);
    }
  }

  /** How many of `keys` equal `name`. */
  function Occurrences(keys: seq<string>, name: string): nat {
    if keys == [] then 0 else Occurrences(keys[..|keys| - 1], name) + (if keys[|keys| - 1] == name then 1 else 0)
  }

  lemma {:induction false} CountNamedSnoc(keys: seq<string>, rs: seq<FileRecord>, r: FileRecord)
    ensures CountNamed(keys, rs + [r]) == CountNamed(keys, rs) + Occurrences(keys, r.name)
  {
    if keys != [] {
      CountNamedSnoc(keys[..|keys| - 1], rs, r);
      assert (rs + [r])[..|rs + [r]| - 1] == rs;
    }
  }

  lemma {:induction false} OccursOnce(keys: seq<string>, name: string)
    requires Distinct(keys) && name in keys
    ensures Occurrences(keys, name) == 1
  {
    var init := keys[..|keys| - 1];
    if keys[|keys| - 1] == name {
      OccursNever(init, name);
    } else {
      assert name in init;
      OccursOnce(init, name);
    }
  }

  lemma {:induction false} OccursNever(keys: seq<string>, name: string)
    requires name !in keys
    ensures Occurrences(keys, name) == 0
  {
    if keys != [] {
      OccursNever(keys[..|keys| - 1], name);
    }
  }

  /** Each key holding at least one path, the lengths add up to at least the number of
      keys. */
  lemma {:induction false} SumAtLeastCount(m: map<string, seq<string>>, keys: seq<string>)
    requires forall k :: k in keys ==> Lookup(m, k) != []
    ensures SumLengths(m, keys) >= |keys|
  {
    if keys != [] {
      SumAtLeastCount(m, keys[..|keys| - 1]);
    }
  }

  // ---------------------------------------------------------------------
  // Age rendering

  /** `format_age`: seconds under a minute, minutes and seconds under an hour, hours and
      minutes beyond. The parts shown always recombine to the age, up to the unit
      dropped. */
  function FormatAge(stats: DirectoryTreeStats): (text: string)
    ensures var secs := stats.ageNanos / 1_000_000_000;
      && (secs < 60 ==> text == NatToString(secs) + "s")
      && (60 <= secs < 3600 ==> exists m: nat, s: nat :: (1 <= m < 60 && s < 60 && m * 60 + s == secs
            && text == NatToString(m) + "m" + NatToString(s) + "s"))
      && (secs >= 3600 ==> exists h: nat, m: nat :: (h >= 1 && m < 60 && h * 3600 + m * 60 <= secs < h * 3600 + m * 60 + 60
            && text == NatToString(h) + "h" + NatToString(m) + "m"))
  {
    var secs := stats.ageNanos / 1_000_000_000;
    if secs < 60 then NatToString(secs) + "s"
    else if secs < 3600 then
      FormatAgeMinutes(secs);
      NatToString(secs / 60) + "m" + NatToString(secs % 60) + "s"
    else
      FormatAgeHours(secs);
      NatToString(secs / 3600) + "h" + NatToString((secs % 3600) / 60) + "m"
  }

  lemma FormatAgeMinutes(secs: nat)
    requires 60 <= secs < 3600
    ensures 1 <= secs / 60 < 60 && secs / 60 * 60 + secs % 60 == secs
  {
  }

  lemma FormatAgeHours(secs: nat)
    requires secs >= 3600
    ensures var h, m := secs / 3600, (secs % 3600) / 60;
      h >= 1 && m < 60 && h * 3600 + m * 60 <= secs < h * 3600 + m * 60 + 60
  {
    var h, r := secs / 3600, secs % 3600;
    assert secs == h * 3600 + r;
    var m, s := r / 60, r % 60;
    assert r == m * 60 + s;
  }
}
