/** Specification functions of the macOS dylib bundler: how `otool -L` output
    is classified, how the Homebrew name index is folded from `find` output,
    the dependency graph the walk explores and its reachable set, the copy
    selection and deduplication, and the install_name_tool rewrite plan.

    External programs are oracles: otool is a map from path to its outcome,
    the filesystem is a set of existing paths plus a symlink-resolution map,
    install_name_tool is replaced by the list of actions it would be given. */
module DylibSpec {
  import opened Wrappers
  import opened Strings
  import opened Collections

  /** What `otool -L <path>` produced: its standard output, or a failure
      (nonzero exit status, timeout or a process error). */
  datatype OtoolOutcome = OtoolOk(stdout: string) | OtoolFailed

  /** What the Homebrew `find` produced: its standard output, or a failure
      (nonzero exit status or timeout). */
  datatype FindOutcome = FindOk(stdout: string) | FindFailed

  /** How copying one library into the Frameworks directory can fail, by what it leaves
      behind: the permission change or removal of an existing file raised and the old
      file stays; the copy raised and no file of that name is left; or the copy was
      written, in whole or in part, and then something raised, so a new file stays. A name
      without a failure is copied and recorded. */
  datatype CopyFailure = FailedKeepingOld | FailedRemoved | FailedLeavingCopy

  /** The dependencies of one binary: direct Homebrew paths and `@rpath/` references. */
  datatype Deps = Deps(direct: seq<string>, rpath: seq<string>)

  /** One install_name_tool invocation: `-change oldRef newRef subject` or `-id id subject`. */
  datatype Action =
    | Change(subject: string, oldRef: string, newRef: string)
    | SetId(subject: string, id: string)

  /** The external world the walk observes; none of it changes during the walk. */
  datatype Graph = Graph(
    listing: map<string, Deps>,          // classified otool -L output per path (ParseListing)
    existing: set<string>,               // paths for which Path(p).exists()
    index: map<string, string>)          // homebrew_index: library name -> path

  const CompatibilityMarker: string := " (compatibility"
  const RpathPrefix: string := "@rpath/"
  const DylibSuffix: string := ".dylib"
  const PreferredLibDir: string := "/opt/homebrew/lib/"
  const CurrentDir: string := "/current/"
  const ExecutableFrameworks: string := "@executable_path/../Frameworks/"
  const LoaderPath: string := "@loader_path/"
  const MaxDepth: nat := 20

  // ---------------------------------------------------------------------
  // File names

  function TrimTrailingSlashes(p: string): string {
    if p != [] && p[|p| - 1] == '/' then TrimTrailingSlashes(p[..|p| - 1]) else p
  }

  /** `Path(p).name`: the last component, trailing slashes ignored. */
  function PathName(p: string): (n: string)
    ensures '/' !in n
  {
    var n := BaseName(TrimTrailingSlashes(p));
    LastSegmentShape(TrimTrailingSlashes(p), {'/'});
    assert forall i :: 0 <= i < |n| ==> n[i] != '/';
    n
  }

  /** The name of `dir / name` is `name` for a plain non-empty name. */
  lemma PathNameOfJoin(dir: string, name: string)
    requires name != [] && '/' !in name
    ensures PathName(JoinPath(dir, name)) == name
  {
    var j := JoinPath(dir, name);
    assert j[|j| - 1] == name[|name| - 1];
    assert TrimTrailingSlashes(j) == j;
    BaseNameOfJoin(dir, name);
  }

  /** `Path(name).suffix == '.dylib'`: pathlib only reports a suffix whose dot is not
      the first character of the name. */
  predicate HasDylibSuffix(name: string) {
    |name| > |DylibSuffix| && EndsWith(name, DylibSuffix)
  }

  // ---------------------------------------------------------------------
  // otool -L classification

  /** The reference a listing line names, or None for a blank line: the stripped
      text before " (compatibility". */
  function LineRef(line: string): (r: Option<string>)
    ensures r.Some? ==> Strip(line) != []
  {
    var t := Strip(line);
    if t == [] then None else Some(Strip(BeforeFirst(t, CompatibilityMarker)))
  }

  predicate IsRpathRef(r: string) {
    StartsWith(r, RpathPrefix) && EndsWith(r, DylibSuffix)
  }

  /** Sort the references of `lines` into direct Homebrew paths (those starting
      with the prefix) and rpath references; everything else is dropped. */
  function ClassifyLines(prefix: string, lines: seq<string>): (d: Deps)
    ensures |d.direct| + |d.rpath| <= |lines|
  {
    if lines == [] then Deps([], [])
    else
      var d := ClassifyLines(prefix, lines[..|lines| - 1]);
      match LineRef(lines[|lines| - 1])
      case None => d
      case Some(r) =>
        if StartsWith(r, prefix) then Deps(d.direct + [r], d.rpath)
        else if IsRpathRef(r) then Deps(d.direct, d.rpath + [r])
        else d
  }

  /** Classification is line by line: the lists for `a + b` are those for `a`
      followed by those for `b`, so the listing order is kept. */
  lemma {:induction false} ClassifyLinesAppend(prefix: string, a: seq<string>, b: seq<string>)
    ensures ClassifyLines(prefix, a + b).direct == ClassifyLines(prefix, a).direct + ClassifyLines(prefix, b).direct
    ensures ClassifyLines(prefix, a + b).rpath == ClassifyLines(prefix, a).rpath + ClassifyLines(prefix, b).rpath
    decreases |b|
  {
    if b == [] {
      assert a + b == a;
    } else {
      assert (a + b)[..|a + b| - 1] == a + b[..|b| - 1];
      ClassifyLinesAppend(prefix, a, b[..|b| - 1]);
    }
  }

  /** A reference is listed as direct exactly when some line names it and it starts with
      the prefix, and as rpath exactly when some line names it, it does not start with the
      prefix, and it has the `@rpath/…dylib` shape. */
  lemma {:induction false} ClassifyLinesMembership(prefix: string, lines: seq<string>, x: string)
    ensures x in ClassifyLines(prefix, lines).direct <==> StartsWith(x, prefix) && NamedByLine(lines, x)
    ensures x in ClassifyLines(prefix, lines).rpath <==>
      !StartsWith(x, prefix) && IsRpathRef(x) && NamedByLine(lines, x)
  {
    if lines != [] {
      ClassifyLinesMembership(prefix, lines[..|lines| - 1], x);
      NamedByLineSnoc(lines, x);
    }
  }

  /** Some line of `lines` carries the reference `x`. */
  predicate NamedByLine(lines: seq<string>, x: string) {
    exists i :: 0 <= i < |lines| && LineRef(lines[i]) == Some(x)
  }

  lemma NamedByLineSnoc(lines: seq<string>, x: string)
    requires lines != []
    ensures NamedByLine(lines, x) <==>
      NamedByLine(lines[..|lines| - 1], x) || LineRef(lines[|lines| - 1]) == Some(x)
  {
    var init := lines[..|lines| - 1];
    if NamedByLine(lines, x) {
      var i :| 0 <= i < |lines| && LineRef(lines[i]) == Some(x);
      if i < |init| {
        assert init[i] == lines[i];
      }
    }
    if NamedByLine(init, x) {
      var i :| 0 <= i < |init| && LineRef(init[i]) == Some(x);
      assert lines[i] == init[i];
    }
  }

  /** The lines get_dependencies classifies: the stripped output split on newlines,
      without its first line (otool's echo of the queried path). */
  function OtoolLines(stdout: string): seq<string> {
    Split(Strip(stdout), '\n')[1..]
  }

  lemma {:induction false} IndexOfAfterPlain(h: string, b: string)
    requires '\n' !in h
    ensures '\n' in h + "\n" + b && IndexOf(h + "\n" + b, '\n') == |h|
  {
    var s := h + "\n" + b;
    assert s[|h|] == '\n';
    var k := IndexOf(s, '\n');
    assert k <= |h| ==> s[..k] == h[..k];
  }

  /** The header line never contributes: for already-stripped output `h\nb`, the
      classified lines are exactly the lines of `b`. */
  lemma OtoolLinesDropHeader(h: string, b: string)
    requires '\n' !in h
    requires Strip(h + "\n" + b) == h + "\n" + b
    ensures OtoolLines(h + "\n" + b) == Split(b, '\n')
  {
    var s := h + "\n" + b;
    IndexOfAfterPlain(h, b);
    assert s[|h| + 1..] == b;
    assert s[..|h|] == h;
  }

  /** The pair get_dependencies computes for one otool outcome. */
  function Inspect(prefix: string, outcome: OtoolOutcome): (d: Deps)
    ensures outcome.OtoolFailed? ==> d == Deps([], [])
  {
    match outcome
    case OtoolFailed => Deps([], [])
    case OtoolOk(out) => ClassifyLines(prefix, OtoolLines(out))
  }

  function OtoolOf(otool: map<string, OtoolOutcome>, p: string): OtoolOutcome {
    if p in otool then otool[p] else OtoolFailed
  }

  function DepsOf(prefix: string, otool: map<string, OtoolOutcome>, p: string): Deps {
    Inspect(prefix, OtoolOf(otool, p))
  }

  /** The classified otool listing of every path otool can analyse. */
  function ParseListing(prefix: string, otool: map<string, OtoolOutcome>): map<string, Deps> {
    map p | p in otool :: Inspect(prefix, otool[p])
  }

  /** A path's entry in a listing; a path otool cannot analyse has no dependencies. */
  function Listed(listing: map<string, Deps>, p: string): Deps {
    if p in listing then listing[p] else Deps([], [])
  }

  /** The listing answers for every path what get_dependencies computes for it. */
  lemma ParseListingAgrees(prefix: string, otool: map<string, OtoolOutcome>, p: string)
    ensures Listed(ParseListing(prefix, otool), p) == DepsOf(prefix, otool, p)
  {
  }

  // ---------------------------------------------------------------------
  // The Homebrew name index

  /** A path that may overwrite an earlier index entry of the same name. The
      literal "/opt/homebrew/lib/" is used whatever the configured prefix is. */
  predicate PreferredIndexPath(p: string) {
    Contains(p, PreferredLibDir) || Contains(p, CurrentDir)
  }

  /** The value stored for a found path: its symlink-resolved form when that exists,
      otherwise the path itself (also when resolution fails, i.e. `p !in resolve`). */
  function IndexValue(p: string, existing: set<string>, resolve: map<string, string>): (v: string)
    ensures v == p || (p in resolve && v == resolve[p] && v in existing)
  {
    if p in resolve && resolve[p] in existing then resolve[p] else p
  }

  function IndexStep(m: map<string, string>, p: string, existing: set<string>, resolve: map<string, string>): map<string, string> {
    if p == [] then m
    else
      var n := PathName(p);
      if n !in m || PreferredIndexPath(p) then m[n := IndexValue(p, existing, resolve)] else m
  }

  /** The index after processing the found paths in order. */
  function IndexFold(m: map<string, string>, paths: seq<string>, existing: set<string>, resolve: map<string, string>): map<string, string> {
    if paths == [] then m
    else IndexStep(IndexFold(m, paths[..|paths| - 1], existing, resolve), paths[|paths| - 1], existing, resolve)
  }

  /** The lines build_homebrew_index iterates: the stripped output split on newlines. */
  function FindLines(stdout: string): seq<string> {
    Split(Strip(stdout), '\n')
  }

  function IndexAfterFind(m: map<string, string>, find: FindOutcome, existing: set<string>, resolve: map<string, string>): map<string, string> {
    match find
    case FindFailed => m
    case FindOk(out) => IndexFold(m, FindLines(out), existing, resolve)
  }

  /** The names of the non-empty lines. */
  function LineNames(paths: seq<string>): set<string> {
    set p | p in paths && p != [] :: PathName(p)
  }

  /** The index gains exactly one key per name of a non-empty found path, and nothing else. */
  lemma {:induction false} IndexFoldKeys(m: map<string, string>, paths: seq<string>, existing: set<string>, resolve: map<string, string>)
    ensures IndexFold(m, paths, existing, resolve).Keys == m.Keys + LineNames(paths)
  {
    if paths != [] {
      var init := paths[..|paths| - 1];
      IndexFoldKeys(m, init, existing, resolve);
      assert paths == init + [paths[|paths| - 1]];
      assert LineNames(paths) == LineNames(init) + LineNames([paths[|paths| - 1]]);
    }
  }

  /** A name no found path carries keeps its old entry (or its absence). */
  lemma {:induction false} IndexFoldUntouched(m: map<string, string>, paths: seq<string>, existing: set<string>, resolve: map<string, string>, n: string)
    requires forall j :: 0 <= j < |paths| && paths[j] != [] ==> PathName(paths[j]) != n
    ensures n in IndexFold(m, paths, existing, resolve) <==> n in m
    ensures n in m ==> IndexFold(m, paths, existing, resolve)[n] == m[n]
  {
    if paths != [] {
      IndexFoldUntouched(m, paths[..|paths| - 1], existing, resolve, n);
    }
  }

  /** A preferred path wins over everything before it; only a later preferred path
      of the same name can replace it. */
  lemma {:induction false} IndexFoldPreferredWins(m: map<string, string>, paths: seq<string>, existing: set<string>, resolve: map<string, string>, i: nat)
    requires i < |paths| && paths[i] != [] && PreferredIndexPath(paths[i])
    requires forall j :: i < j < |paths| && paths[j] != [] && PathName(paths[j]) == PathName(paths[i]) ==> !PreferredIndexPath(paths[j])
    ensures PathName(paths[i]) in IndexFold(m, paths, existing, resolve)
    ensures IndexFold(m, paths, existing, resolve)[PathName(paths[i])] == IndexValue(paths[i], existing, resolve)
  {
    var init := paths[..|paths| - 1];
    if i < |paths| - 1 {
      IndexFoldPreferredWins(m, init, existing, resolve, i);
    }
  }

  /** Without any preferred path of that name, the first path of a new name keeps its entry. */
  lemma {:induction false} IndexFoldFirstWins(m: map<string, string>, paths: seq<string>, existing: set<string>, resolve: map<string, string>, i: nat)
    requires i < |paths| && paths[i] != [] && PathName(paths[i]) !in m
    requires forall j :: 0 <= j < i && paths[j] != [] ==> PathName(paths[j]) != PathName(paths[i])
    requires forall j :: i < j < |paths| && paths[j] != [] && PathName(paths[j]) == PathName(paths[i]) ==> !PreferredIndexPath(paths[j])
    ensures PathName(paths[i]) in IndexFold(m, paths, existing, resolve)
    ensures IndexFold(m, paths, existing, resolve)[PathName(paths[i])] == IndexValue(paths[i], existing, resolve)
  {
    var init := paths[..|paths| - 1];
    if i < |paths| - 1 {
      IndexFoldFirstWins(m, init, existing, resolve, i);
    } else {
      IndexFoldUntouched(m, init, existing, resolve, PathName(paths[i]));
    }
  }

  /** `resolve_rpath`: look the reference's file name up in the index. */
  function ResolveRpath(index: map<string, string>, rpathRef: string): (r: Option<string>)
    ensures r.Some? <==> PathName(rpathRef) in index
    ensures r.Some? ==> r.value == index[PathName(rpathRef)]
  {
    if PathName(rpathRef) in index then Some(index[PathName(rpathRef)]) else None
  }

  // ---------------------------------------------------------------------
  // The dependency graph

  /** The direct dependencies the walk follows: those that exist. */
  function DirectTargets(direct: seq<string>, existing: set<string>): seq<string> {
    if direct == [] then []
    else
      var init := DirectTargets(direct[..|direct| - 1], existing);
      var d := direct[|direct| - 1];
      if d in existing then init + [d] else init
  }

  /** The walk follows a direct dependency exactly when it exists. */
  lemma {:induction false} DirectTargetsMembership(direct: seq<string>, existing: set<string>, q: string)
    ensures q in DirectTargets(direct, existing) <==> q in direct && q in existing
  {
    if direct != [] {
      DirectTargetsMembership(direct[..|direct| - 1], existing, q);
      assert direct == direct[..|direct| - 1] + [direct[|direct| - 1]];
    }
  }

  /** Whether the walk follows an rpath reference to `q`: it resolves to the
      non-empty existing path `q`. */
  predicate RpathLeadsTo(index: map<string, string>, existing: set<string>, r: string, q: string) {
    ResolveRpath(index, r) == Some(q) && q != [] && q in existing
  }

  /** The rpath dependencies the walk follows, resolved. */
  function RpathTargets(rpath: seq<string>, index: map<string, string>, existing: set<string>): seq<string> {
    if rpath == [] then []
    else
      var init := RpathTargets(rpath[..|rpath| - 1], index, existing);
      match ResolveRpath(index, rpath[|rpath| - 1])
      case None => init
      case Some(q) => if q != [] && q in existing then init + [q] else init
  }

  /** The walk reaches `q` through an rpath reference exactly when one of the
      references resolves to the non-empty existing path `q`. */
  lemma {:induction false} RpathTargetsMembership(rpath: seq<string>, index: map<string, string>, existing: set<string>, q: string)
    ensures q in RpathTargets(rpath, index, existing) <==> exists r :: r in rpath && RpathLeadsTo(index, existing, r, q)
  {
    if rpath != [] {
      var init := rpath[..|rpath| - 1];
      var last := rpath[|rpath| - 1];
      RpathTargetsMembership(init, index, existing, q);
      assert rpath == init + [last];
      if q in RpathTargets(rpath, index, existing) && q !in RpathTargets(init, index, existing) {
        assert RpathLeadsTo(index, existing, last, q);
      }
      if exists r :: r in rpath && RpathLeadsTo(index, existing, r, q) {
        var r :| r in rpath && RpathLeadsTo(index, existing, r, q);
        if r != last {
          assert r in init;
        }
      }
    }
  }

  /** The paths find_dependencies_recursive recurses into from `p`. */
  function Successors(g: Graph, p: string): seq<string> {
    var d := Listed(g.listing, p);
    DirectTargets(d.direct, g.existing) + RpathTargets(d.rpath, g.index, g.existing)
  }

  /** Every successor is an existing file. */
  lemma SuccessorExists(g: Graph, p: string, q: string)
    requires q in Successors(g, p)
    ensures q in g.existing
  {
    var d := Listed(g.listing, p);
    DirectTargetsMembership(d.direct, g.existing, q);
    RpathTargetsMembership(d.rpath, g.index, g.existing, q);
  }

  predicate IsWalk(g: Graph, w: seq<string>) {
    |w| >= 1 && forall i :: 0 <= i < |w| - 1 ==> w[i + 1] in Successors(g, w[i])
  }

  ghost predicate Reachable(g: Graph, root: string, q: string) {
    exists w :: IsWalk(g, w) && w[0] == root && w[|w| - 1] == q
  }

  /** Everything reachable from `root`, root included. */
  ghost function ReachableFrom(g: Graph, root: string): set<string> {
    set q | q in g.existing + {root} && Reachable(g, root, q)
  }

  lemma ReachableRoot(g: Graph, root: string)
    ensures Reachable(g, root, root) && root in ReachableFrom(g, root)
  {
    assert IsWalk(g, [root]);
  }

  /** Following one edge from a reachable node reaches its successor. */
  lemma ReachableStep(g: Graph, root: string, p: string, q: string)
    requires Reachable(g, root, p) && q in Successors(g, p)
    ensures Reachable(g, root, q) && q in ReachableFrom(g, root)
  {
    SuccessorExists(g, p, q);
    var w :| IsWalk(g, w) && w[0] == root && w[|w| - 1] == p;
    var w' := w + [q];
    forall i | 0 <= i < |w'| - 1
      ensures w'[i + 1] in Successors(g, w'[i])
    {
      if i < |w| - 1 {
        assert w'[i] == w[i] && w'[i + 1] == w[i + 1];
      }
    }
    assert IsWalk(g, w');
  }

  /** Every successor of a node in `vs` is in `vs`. */
  ghost predicate SuccessorsIn(g: Graph, p: string, vs: set<string>) {
    forall q :: q in Successors(g, p) ==> q in vs
  }

  lemma {:induction false} WalkStaysInClosedSet(g: Graph, w: seq<string>, vs: set<string>)
    requires IsWalk(g, w) && w[0] in vs
    requires forall v :: v in vs ==> SuccessorsIn(g, v, vs)
    ensures w[|w| - 1] in vs
    decreases |w|
  {
    if |w| > 1 {
      var init := w[..|w| - 1];
      assert IsWalk(g, init) by {
        forall i | 0 <= i < |init| - 1
          ensures init[i + 1] in Successors(g, init[i])
        {
          assert init[i] == w[i] && init[i + 1] == w[i + 1];
        }
      }
      WalkStaysInClosedSet(g, init, vs);
      assert w[|w| - 1] in Successors(g, w[|w| - 2]);
    }
  }

  /** A set that holds the root and is closed under Successors holds everything reachable. */
  lemma ClosedSetContainsReachable(g: Graph, root: string, vs: set<string>)
    requires root in vs
    requires forall v :: v in vs ==> SuccessorsIn(g, v, vs)
    ensures ReachableFrom(g, root) <= vs
  {
    forall q | q in ReachableFrom(g, root)
      ensures q in vs
    {
      var w :| IsWalk(g, w) && w[0] == root && w[|w| - 1] == q;
      WalkStaysInClosedSet(g, w, vs);
    }
  }

  // ---------------------------------------------------------------------
  // Copy selection

  /** The visited paths copy_dylibs considers: `.dylib` files that exist and are not
      named like the binary. */
  function CopyCandidates(order: seq<string>, binaryName: string, existing: set<string>): seq<string> {
    if order == [] then []
    else
      var init := CopyCandidates(order[..|order| - 1], binaryName, existing);
      var p := order[|order| - 1];
      if HasDylibSuffix(PathName(p)) && PathName(p) != binaryName && p in existing then init + [p] else init
  }

  /** A visited path is a copy candidate exactly when it is an existing `.dylib` not named
      like the binary. */
  lemma {:induction false} CopyCandidatesMembership(order: seq<string>, binaryName: string, existing: set<string>, p: string)
    ensures p in CopyCandidates(order, binaryName, existing) <==>
      p in order && HasDylibSuffix(PathName(p)) && PathName(p) != binaryName && p in existing
  {
    if order != [] {
      CopyCandidatesMembership(order[..|order| - 1], binaryName, existing, p);
      assert order == order[..|order| - 1] + [order[|order| - 1]];
    }
  }

  function NamesOf(ps: seq<string>): set<string> {
    set p | p in ps :: PathName(p)
  }

  lemma NamesOfAppend(ps: seq<string>, p: string)
    ensures NamesOf(ps + [p]) == NamesOf(ps) + {PathName(p)}
  {
    assert forall x :: x in ps + [p] <==> x in ps || x == p;
  }

  predicate DistinctNames(ps: seq<string>) {
    forall i, j :: 0 <= i < j < |ps| ==> PathName(ps[i]) != PathName(ps[j])
  }

  /** The first path of `ps` carrying the name `n`. */
  function FirstWithName(ps: seq<string>, n: string): (p: string)
    requires n in NamesOf(ps)
    ensures p in ps && PathName(p) == n
  {
    if PathName(ps[0]) == n then ps[0]
    else
      assert n in NamesOf(ps[1..]) by {
        var x :| x in ps && PathName(x) == n;
        assert x != ps[0];
      }
      FirstWithName(ps[1..], n)
  }

  /** The `unique_dylibs` dictionary, as the sequence of its values in insertion order:
      one path per name, the first one seen. */
  function DedupByName(ps: seq<string>): seq<string> {
    if ps == [] then []
    else
      var r := DedupByName(ps[..|ps| - 1]);
      var p := ps[|ps| - 1];
      if PathName(p) in NamesOf(r) then r else r + [p]
  }

  /** Deduplication keeps one path per name, loses no name, and invents no path. */
  lemma {:induction false} DedupByNameShape(ps: seq<string>)
    ensures DistinctNames(DedupByName(ps))
    ensures NamesOf(DedupByName(ps)) == NamesOf(ps)
    ensures forall p :: p in DedupByName(ps) ==> p in ps
  {
    if ps != [] {
      var init := ps[..|ps| - 1];
      var r := DedupByName(init);
      var p := ps[|ps| - 1];
      DedupByNameShape(init);
      assert ps == init + [p];
      NamesOfAppend(init, p);
      if PathName(p) !in NamesOf(r) {
        NamesOfAppend(r, p);
        assert forall q :: q in r ==> PathName(q) != PathName(p);
      }
    }
  }

  lemma FirstWithNameAppend(ps: seq<string>, p: string, n: string)
    requires n in NamesOf(ps)
    ensures n in NamesOf(ps + [p]) && FirstWithName(ps + [p], n) == FirstWithName(ps, n)
    decreases |ps|
  {
    NamesOfAppend(ps, p);
    if PathName(ps[0]) != n {
      assert (ps + [p])[1..] == ps[1..] + [p];
      assert n in NamesOf(ps[1..]) by {
        var x :| x in ps && PathName(x) == n;
        assert x != ps[0];
      }
      FirstWithNameAppend(ps[1..], p, n);
    }
  }

  lemma FirstWithNameNew(ps: seq<string>, p: string)
    requires PathName(p) !in NamesOf(ps)
    ensures PathName(p) in NamesOf(ps + [p]) && FirstWithName(ps + [p], PathName(p)) == p
    decreases |ps|
  {
    NamesOfAppend(ps, p);
    if ps != [] {
      assert PathName(ps[0]) != PathName(p);
      assert (ps + [p])[1..] == ps[1..] + [p];
      assert NamesOf(ps[1..]) <= NamesOf(ps);
      FirstWithNameNew(ps[1..], p);
    }
  }

  /** Every kept path is the first one of its name: later duplicates are dropped. */
  lemma {:induction false} DedupKeepsFirst(ps: seq<string>)
    ensures forall p :: p in DedupByName(ps) ==> PathName(p) in NamesOf(ps) && p == FirstWithName(ps, PathName(p))
  {
    if ps != [] {
      var init := ps[..|ps| - 1];
      var last := ps[|ps| - 1];
      assert ps == init + [last];
      DedupKeepsFirst(init);
      DedupByNameShape(init);
      var r := DedupByName(init);
      NamesOfAppend(init, last);
      forall p | p in DedupByName(ps)
        ensures PathName(p) in NamesOf(ps) && p == FirstWithName(ps, PathName(p))
      {
        if p in r {
          FirstWithNameAppend(init, last, PathName(p));
        } else {
          assert p == last && PathName(last) !in NamesOf(init);
          FirstWithNameNew(init, last);
        }
      }
    }
  }

  /** What copy_dylibs returns for the deduplicated paths: `frameworks/<name>` made absolute
      against `cwd`, for every name whose copy did not fail, whatever a failure left behind. */
  function CopiedPaths(uniq: seq<string>, frameworksDir: string, cwd: string, copyFails: map<string, CopyFailure>): seq<string> {
    if uniq == [] then []
    else
      var init := CopiedPaths(uniq[..|uniq| - 1], frameworksDir, cwd, copyFails);
      var n := PathName(uniq[|uniq| - 1]);
      if n in copyFails then init else init + [JoinPath(cwd, JoinPath(frameworksDir, n))]
  }

  /** The copied entries are named after distinct, successfully copied names of the
      deduplicated set, and each such name has its entry. */
  lemma {:induction false} CopiedPathsNames(uniq: seq<string>, frameworksDir: string, cwd: string, copyFails: map<string, CopyFailure>)
    requires DistinctNames(uniq)
    requires forall p :: p in uniq ==> PathName(p) != []
    ensures DistinctNames(CopiedPaths(uniq, frameworksDir, cwd, copyFails))
    ensures NamesOf(CopiedPaths(uniq, frameworksDir, cwd, copyFails)) == NamesOf(uniq) - copyFails.Keys
  {
    if uniq != [] {
      var init := uniq[..|uniq| - 1];
      var last := uniq[|uniq| - 1];
      assert uniq == init + [last];
      assert DistinctNames(init);
      CopiedPathsNames(init, frameworksDir, cwd, copyFails);
      NamesOfAppend(init, last);
      var n := PathName(last);
      var fails := copyFails.Keys;
      var c := CopiedPaths(init, frameworksDir, cwd, copyFails);
      assert NamesOf(c) == NamesOf(init) - fails;
      MinusAdded(NamesOf(init), fails, n);
      if n !in copyFails {
        var local := JoinPath(cwd, JoinPath(frameworksDir, n));
        assert CopiedPaths(uniq, frameworksDir, cwd, copyFails) == c + [local];
        NewNameOfDistinct(uniq);
        CopiedPathName(frameworksDir, cwd, n);
        NamesOfAppend(c, local);
        DistinctNamesSnoc(c, local);
      } else {
        assert CopiedPaths(uniq, frameworksDir, cwd, copyFails) == c;
      }
    }
  }

  /** Removing `k` after adding `n` to `a`. */
  lemma MinusAdded(a: set<string>, k: set<string>, n: string)
    ensures n in k ==> (a + {n}) - k == a - k
    ensures n !in k ==> (a + {n}) - k == (a - k) + {n}
  {
  }

  /** Appending a path with a new name keeps the names distinct. */
  lemma DistinctNamesSnoc(ps: seq<string>, p: string)
    requires DistinctNames(ps) && PathName(p) !in NamesOf(ps)
    ensures DistinctNames(ps + [p])
  {
    forall i, j | 0 <= i < j < |ps + [p]| ensures PathName((ps + [p])[i]) != PathName((ps + [p])[j]) {
      if j == |ps| {
        assert (ps + [p])[i] == ps[i] && ps[i] in ps;
      }
    }
  }

  /** The last path of a list with distinct names carries a name no earlier path has. */
  lemma NewNameOfDistinct(ps: seq<string>)
    requires ps != [] && DistinctNames(ps)
    ensures PathName(ps[|ps| - 1]) !in NamesOf(ps[..|ps| - 1])
  {
    var init := ps[..|ps| - 1];
    forall x | x in init ensures PathName(x) != PathName(ps[|ps| - 1]) {
      var k :| 0 <= k < |init| && init[k] == x;
      assert ps[k] == x;
    }
  }

  /** The copy of a library named `n` is named `n`. */
  lemma CopiedPathName(frameworksDir: string, cwd: string, n: string)
    requires n != [] && '/' !in n
    ensures PathName(JoinPath(cwd, JoinPath(frameworksDir, n))) == n
  {
    var fn := JoinPath(frameworksDir, n);
    PathNameOfJoin(frameworksDir, n);
    assert fn[|fn| - 1] == n[|n| - 1];
    PathNameOfSuffixJoin(cwd, fn, n);
  }

  /** Joining a path that ends in the plain name `n` keeps `n` as the file name. */
  lemma PathNameOfSuffixJoin(dir: string, p: string, n: string)
    requires n != [] && '/' !in n && PathName(p) == n
    requires p != [] && p[|p| - 1] != '/'
    ensures PathName(JoinPath(dir, p)) == n
  {
    var j := JoinPath(dir, p);
    assert TrimTrailingSlashes(p) == p;
    assert j[|j| - 1] == p[|p| - 1];
    assert TrimTrailingSlashes(j) == j;
    if !(StartsWith(p, "/") || dir == []) {
      var pre := if dir[|dir| - 1] == '/' then dir else dir + "/";
      assert j == pre + p;
      LastSegmentOfConcat(pre, p, {'/'});
    }
  }

  /** The last segment of `a + b` is that of `b` when `b` contains a separator. */
  lemma {:induction false} LastSegmentOfConcat(a: string, b: string, seps: set<char>)
    requires LastSegment(b, seps) != b || (a != [] && a[|a| - 1] in seps)
    ensures LastSegment(a + b, seps) == LastSegment(b, seps)
    decreases |b|
  {
    if b == [] {
      assert a + b == a;
    } else {
      var ab := a + b;
      assert ab[|ab| - 1] == b[|b| - 1];
      if b[|b| - 1] !in seps {
        assert ab[..|ab| - 1] == a + b[..|b| - 1];
        LastSegmentOfConcat(a, b[..|b| - 1], seps);
      }
    }
  }

  // ---------------------------------------------------------------------
  // The rewrite plan

  /** `(frameworks_dir / name).exists()`: the empty name denotes the directory itself,
      which exists once copy_dylibs has created it. */
  predicate InFrameworks(bundle: set<string>, name: string) {
    name == [] || name in bundle
  }

  /** The main binary: every existing visited path is redirected to the bundled copy of its
      name, whether or not such a copy exists. */
  function BinaryChanges(binary: string, order: seq<string>, existing: set<string>): seq<Action> {
    if order == [] then []
    else
      var init := BinaryChanges(binary, order[..|order| - 1], existing);
      var p := order[|order| - 1];
      if p in existing then init + [Change(binary, p, ExecutableFrameworks + PathName(p))] else init
  }

  /** The main binary's rpath references whose name is bundled. */
  function BinaryRpathChanges(binary: string, rpath: seq<string>, bundle: set<string>): seq<Action> {
    if rpath == [] then []
    else
      var init := BinaryRpathChanges(binary, rpath[..|rpath| - 1], bundle);
      var r := rpath[|rpath| - 1];
      var n := PathName(r);
      if InFrameworks(bundle, n) then init + [Change(binary, r, ExecutableFrameworks + n)] else init
  }

  /** One copied library's references to other bundled libraries, made loader-relative. */
  function DepChanges(subject: string, ownName: string, refs: seq<string>, bundle: set<string>): seq<Action> {
    if refs == [] then []
    else
      var init := DepChanges(subject, ownName, refs[..|refs| - 1], bundle);
      var r := refs[|refs| - 1];
      var n := PathName(r);
      if n != ownName && InFrameworks(bundle, n) then init + [Change(subject, r, LoaderPath + n)] else init
  }

  /** Everything done to one copied library: its id first, then its direct and rpath references. */
  function LibActions(local: string, d: Deps, bundle: set<string>): seq<Action> {
    var n := PathName(local);
    [SetId(local, LoaderPath + n)]
      + DepChanges(local, n, d.direct, bundle)
      + DepChanges(local, n, d.rpath, bundle)
  }

  function AllLibActions(locals: seq<string>, listing: map<string, Deps>, bundle: set<string>): seq<Action> {
    if locals == [] then []
    else
      AllLibActions(locals[..|locals| - 1], listing, bundle)
        + LibActions(locals[|locals| - 1], Listed(listing, locals[|locals| - 1]), bundle)
  }

  /** The whole install_name_tool plan of rewrite_dependencies. */
  function RewritePlan(g: Graph, binary: string, order: seq<string>, locals: seq<string>, bundle: set<string>): seq<Action> {
    BinaryChanges(binary, order, g.existing)
      + BinaryRpathChanges(binary, Listed(g.listing, binary).rpath, bundle)
      + AllLibActions(locals, g.listing, bundle)
  }

  /** Main binary: a change of `old` is planned exactly for the existing visited paths,
      unconditionally, towards `@executable_path/../Frameworks/<name>`. */
  lemma {:induction false} BinaryChangesExactly(binary: string, order: seq<string>, existing: set<string>, s: string, before: string, after: string)
    ensures Change(s, before, after) in BinaryChanges(binary, order, existing) <==>
      s == binary && before in order && before in existing && after == ExecutableFrameworks + PathName(before)
    ensures forall a :: a in BinaryChanges(binary, order, existing) ==> a.Change?
  {
    if order != [] {
      var init := order[..|order| - 1];
      BinaryChangesExactly(binary, init, existing, s, before, after);
      assert order == init + [order[|order| - 1]];
    }
  }

  /** Main binary rpath references: changed exactly when the bundle holds their name. */
  lemma {:induction false} BinaryRpathChangesExactly(binary: string, rpath: seq<string>, bundle: set<string>, s: string, before: string, after: string)
    ensures Change(s, before, after) in BinaryRpathChanges(binary, rpath, bundle) <==>
      s == binary && before in rpath && InFrameworks(bundle, PathName(before)) && after == ExecutableFrameworks + PathName(before)
    ensures forall a :: a in BinaryRpathChanges(binary, rpath, bundle) ==> a.Change?
  {
    if rpath != [] {
      var init := rpath[..|rpath| - 1];
      BinaryRpathChangesExactly(binary, init, bundle, s, before, after);
      assert rpath == init + [rpath[|rpath| - 1]];
    }
  }

  /** A copied library's reference is changed exactly when it names another bundled library. */
  lemma {:induction false} DepChangesExactly(subject: string, ownName: string, refs: seq<string>, bundle: set<string>, s: string, before: string, after: string)
    ensures Change(s, before, after) in DepChanges(subject, ownName, refs, bundle) <==>
      s == subject && before in refs && PathName(before) != ownName && InFrameworks(bundle, PathName(before))
      && after == LoaderPath + PathName(before)
    ensures forall a :: a in DepChanges(subject, ownName, refs, bundle) ==> a.Change? && a.subject == subject
  {
    if refs != [] {
      var init := refs[..|refs| - 1];
      DepChangesExactly(subject, ownName, init, bundle, s, before, after);
      assert refs == init + [refs[|refs| - 1]];
    }
  }

  /** Each copied library's actions start by setting its id to `@loader_path/<name>`, and
      every other action changes one of its own references to a bundled sibling. */
  lemma LibActionsShape(local: string, d: Deps, bundle: set<string>)
    ensures LibActions(local, d, bundle)[0] == SetId(local, LoaderPath + PathName(local))
    ensures forall a :: a in LibActions(local, d, bundle)[1..] ==>
      a.Change? && a.subject == local && (a.oldRef in d.direct || a.oldRef in d.rpath)
      && PathName(a.oldRef) != PathName(local) && InFrameworks(bundle, PathName(a.oldRef))
      && a.newRef == LoaderPath + PathName(a.oldRef)
  {
    var n := PathName(local);
    var dc := DepChanges(local, n, d.direct, bundle);
    var rc := DepChanges(local, n, d.rpath, bundle);
    assert LibActions(local, d, bundle)[1..] == dc + rc;
    forall a: Action | a in dc + rc
      ensures a.Change? && a.subject == local && (a.oldRef in d.direct || a.oldRef in d.rpath)
        && PathName(a.oldRef) != n && InFrameworks(bundle, PathName(a.oldRef))
        && a.newRef == LoaderPath + PathName(a.oldRef)
    {
      if a in dc {
        DepChangesExactly(local, n, d.direct, bundle, local, [], []);
        DepChangesExactly(local, n, d.direct, bundle, local, a.oldRef, a.newRef);
      } else {
        DepChangesExactly(local, n, d.rpath, bundle, local, [], []);
        DepChangesExactly(local, n, d.rpath, bundle, local, a.oldRef, a.newRef);
      }
    }
  }

  /** A rewritten reference never has the `@rpath/` shape, and never starts with a prefix
      that itself does not start with '@', so a second otool pass would classify none of them. */
  lemma {:induction false} RewrittenRefsUnclassified(prefix: string, g: Graph, binary: string, order: seq<string>, locals: seq<string>, bundle: set<string>)
    requires prefix != [] && prefix[0] != '@'
    ensures forall a :: a in RewritePlan(g, binary, order, locals, bundle) && a.Change? ==>
      !IsRpathRef(a.newRef) && !StartsWith(a.newRef, prefix)
  {
    forall a: Action | a in RewritePlan(g, binary, order, locals, bundle) && a.Change?
      ensures !IsRpathRef(a.newRef) && !StartsWith(a.newRef, prefix)
    {
      var bc := BinaryChanges(binary, order, g.existing);
      var head: string;
      if a in bc {
        BinaryChangesExactly(binary, order, g.existing, a.subject, a.oldRef, a.newRef);
        head := ExecutableFrameworks;
      } else if a in BinaryRpathChanges(binary, Listed(g.listing, binary).rpath, bundle) {
        BinaryRpathChangesExactly(binary, Listed(g.listing, binary).rpath, bundle, a.subject, a.oldRef, a.newRef);
        head := ExecutableFrameworks;
      } else {
        AllLibActionsNewRefs(locals, g.listing, bundle, a);
        head := LoaderPath;
      }
      AtReferenceUnclassified(a.newRef, head, prefix);
    }
  }

  /** A reference starting with `@x` for x other than 'r' is neither an rpath reference
      nor under a prefix that does not start with '@'. */
  lemma AtReferenceUnclassified(r: string, head: string, prefix: string)
    requires |head| >= 2 && head[0] == '@' && head[1] != 'r' && StartsWith(r, head)
    requires prefix != [] && prefix[0] != '@'
    ensures !IsRpathRef(r) && !StartsWith(r, prefix)
  {
    assert r[0] == '@' && r[1] == head[1];
  }

  lemma {:induction false} AllLibActionsNewRefs(locals: seq<string>, listing: map<string, Deps>, bundle: set<string>, a: Action)
    requires a in AllLibActions(locals, listing, bundle) && a.Change?
    ensures StartsWith(a.newRef, LoaderPath)
  {
    var init := locals[..|locals| - 1];
    var local := locals[|locals| - 1];
    if a in AllLibActions(init, listing, bundle) {
      AllLibActionsNewRefs(init, listing, bundle, a);
    } else {
      var d := Listed(listing, local);
      LibActionsShape(local, d, bundle);
      var la := LibActions(local, d, bundle);
      var k :| 0 <= k < |la| && la[k] == a;
      assert k != 0;
      assert la[1..][k - 1] == a;
    }
  }
}
