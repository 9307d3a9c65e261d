/** The macOS dylib bundler as a stateful object: the Homebrew index and the
    otool cache are filled in place, the depth-first walk grows `visited` and
    pushes/pops `processingStack`, copying updates the Frameworks directory,
    and the rewrite step emits the install_name_tool plan. Each method is
    proved against the specification functions of DylibSpec. */
module DylibBundler {
  import opened Wrappers
  import opened Strings
  import opened Collections
  import opened DylibSpec

  const DefaultHomebrewPrefix: string := "/opt/homebrew"
  const ScriptBinaryPath: string := "target/release/psf-guard"
  const ScriptTauriConfig: string := "tauri.macos.conf.json"
  const ScriptFrameworksDir: string := "Frameworks"

  /** How `process` ended. A run that reaches the copy step always bundles: the
      "no Homebrew dylibs found" exit is unreachable (see Process). */
  datatype ProcessOutcome =
    | BinaryMissing
    | ConfigMissing
    | Bundled(localDylibs: seq<string>, plan: seq<Action>, configUpdated: bool)

  /** The names in the Frameworks directory after copying `uniq` into it: a successful copy
      adds the name; a failed one keeps the old file, removes it, or leaves the new one. */
  function BundleAfterCopy(before: set<string>, uniq: seq<string>, copyFails: map<string, CopyFailure>): set<string> {
    if uniq == [] then before
    else
      AfterCopyOf(BundleAfterCopy(before, uniq[..|uniq| - 1], copyFails), PathName(uniq[|uniq| - 1]), copyFails)
  }

  /** The names in the Frameworks directory `b` after copying the library named `n`. */
  function AfterCopyOf(b: set<string>, n: string, copyFails: map<string, CopyFailure>): set<string> {
    if n !in copyFails then b + {n}
    else match copyFails[n]
      case FailedKeepingOld => b
      case FailedRemoved => b - {n}
      case FailedLeavingCopy => b + {n}
  }

  /** After copying, a name is in the Frameworks directory exactly when its copy succeeded,
      or failed after writing the new file, or failed before removing an old file that
      was there; a name not copied at all is there exactly when it was before. */
  lemma {:induction false} BundleAfterCopyMembership(before: set<string>, uniq: seq<string>, copyFails: map<string, CopyFailure>, n: string)
    ensures n in BundleAfterCopy(before, uniq, copyFails) <==>
      if n !in NamesOf(uniq) then n in before
      else n !in copyFails || copyFails[n] == FailedLeavingCopy || (copyFails[n] == FailedKeepingOld && n in before)
  {
    if uniq != [] {
      var init := uniq[..|uniq| - 1];
      var last := uniq[|uniq| - 1];
      assert uniq == init + [last];
      NamesOfAppend(init, last);
      BundleAfterCopyMembership(before, init, copyFails, n);
    }
  }

  /** A copy that fails after writing the new file leaves a library that is not among the
      returned copies but is still in the Frameworks directory, so the rewrite step still
      redirects references to it. */
  lemma LeftoverCopyStaysBundled(before: set<string>, uniq: seq<string>, frameworksDir: string, cwd: string,
                                 copyFails: map<string, CopyFailure>, n: string)
    requires DistinctNames(uniq) && forall p :: p in uniq ==> PathName(p) != []
    requires n in NamesOf(uniq) && n in copyFails && copyFails[n] == FailedLeavingCopy
    ensures n in BundleAfterCopy(before, uniq, copyFails)
    ensures n !in NamesOf(CopiedPaths(uniq, frameworksDir, cwd, copyFails))
  {
    BundleAfterCopyMembership(before, uniq, copyFails, n);
    CopiedPathsNames(uniq, frameworksDir, cwd, copyFails);
  }

  /** The walk's termination measure: the depth levels still allowed. */
  function Budget(depth: nat, maxDepth: nat): nat {
    if depth <= maxDepth then maxDepth - depth + 1 else 0
  }

  /** Every finished node (in `vs`, not on `stack`) has all its successors in `vs`. */
  ghost predicate ClosedOutside(g: Graph, vs: set<string>, stack: set<string>) {
    forall v :: v in vs && v !in stack ==> SuccessorsIn(g, v, vs)
  }

  /** Pushing a new node onto the stack keeps the finished part closed. */
  lemma PushNode(g: Graph, path: string, vs: set<string>, stack: set<string>)
    requires ClosedOutside(g, vs, stack)
    ensures ClosedOutside(g, vs + {path}, stack + {path})
  {
  }

  /** Popping a node whose successors are all visited keeps the finished part closed. */
  lemma FinishNode(g: Graph, path: string, vs: set<string>, stack: set<string>)
    requires ClosedOutside(g, vs, stack)
    requires forall q :: q in DirectTargets(Listed(g.listing, path).direct, g.existing) ==> q in vs
    requires forall q :: q in RpathTargets(Listed(g.listing, path).rpath, g.index, g.existing) ==> q in vs
    ensures ClosedOutside(g, vs, stack - {path})
  {
  }

  /** Every path walked to is the binary or an existing file. */
  lemma ReachableInWorld(g: Graph, root: string, q: string)
    requires Reachable(g, root, q)
    ensures q in g.existing + {root}
  {
    var w :| IsWalk(g, w) && w[0] == root && w[|w| - 1] == q;
    if |w| > 1 {
      SuccessorExists(g, w[|w| - 2], w[|w| - 1]);
    }
  }

  class DylibProcessor {
    const binaryPath: string
    const tauriConfig: string
    const frameworksDir: string
    const homebrewPrefix: string
    /** The working directory `Path.absolute()` resolves against. */
    const cwd: string
    /** The otool oracle: `otool -L` outcome per path. */
    const otool: map<string, OtoolOutcome>
    /** The otool oracle classified (ParseListing); the walk's graph is defined over it. */
    ghost const listing: map<string, Deps>
    /** The filesystem oracle: the paths that exist, and what symlinks resolve to. */
    const existing: set<string>
    const resolve: map<string, string>

    var visited: set<string>
    var processingStack: set<string>
    var homebrewIndex: map<string, string>
    var otoolCache: map<string, Deps>
    /** The names of the files in the Frameworks directory. */
    var bundle: set<string>

    /** The paths otool was run on, in order. */
    ghost var otoolLog: seq<string>
    /** The paths the walk expanded, in order. */
    ghost var expansions: seq<string>
    /** Whether some call of the walk ran into the depth bound. */
    ghost var depthLimitHit: bool

    ghost predicate Valid()
      reads this`visited, this`processingStack, this`otoolCache, this`otoolLog, this`expansions
    {
      processingStack <= visited
      && (forall p {:trigger DepsOf(homebrewPrefix, otool, p)} :: Listed(listing, p) == DepsOf(homebrewPrefix, otool, p))
      && (forall p :: p in otoolCache ==> otoolCache[p] == Listed(listing, p))
      && Distinct(otoolLog) && Elems(otoolLog) == otoolCache.Keys
      && Distinct(expansions) && Elems(expansions) == visited
    }

    /** The dependency graph as the walk sees it. */
    ghost function G(): Graph
      reads this`homebrewIndex
    {
      Graph(listing, existing, homebrewIndex)
    }

    ghost predicate AllVisitedReachable()
      reads this`visited, this`homebrewIndex
    {
      forall v :: v in visited ==> Reachable(G(), binaryPath, v)
    }

    /** Every finished node (visited and no longer on the stack) has all its successors visited. */
    ghost predicate ClosedOutsideStack()
      reads this`visited, this`processingStack, this`homebrewIndex
    {
      ClosedOutside(G(), visited, processingStack)
    }

    constructor (binaryPath: string, tauriConfig: string, frameworksDir: string, homebrewPrefix: string,
                 cwd: string, otool: map<string, OtoolOutcome>, existing: set<string>,
                 resolve: map<string, string>, frameworksBefore: set<string>)
      ensures this.binaryPath == binaryPath && this.tauriConfig == tauriConfig
      ensures this.frameworksDir == frameworksDir && this.homebrewPrefix == homebrewPrefix
      ensures this.cwd == cwd && this.otool == otool && this.existing == existing && this.resolve == resolve
      ensures listing == ParseListing(homebrewPrefix, otool)
      ensures visited == {} && processingStack == {} && homebrewIndex == map[] && otoolCache == map[]
      ensures bundle == frameworksBefore
      ensures otoolLog == [] && expansions == [] && !depthLimitHit
      ensures Valid()
    {
      this.binaryPath := binaryPath;
      this.tauriConfig := tauriConfig;
      this.frameworksDir := frameworksDir;
      this.homebrewPrefix := homebrewPrefix;
      this.cwd := cwd;
      this.otool := otool;
      this.existing := existing;
      this.resolve := resolve;
      listing := ParseListing(homebrewPrefix, otool);
      visited := {};
      processingStack := {};
      homebrewIndex := map[];
      otoolCache := map[];
      bundle := frameworksBefore;
      otoolLog := [];
      expansions := [];
      depthLimitHit := false;
      new;
      forall p ensures Listed(listing, p) == DepsOf(homebrewPrefix, otool, p) {
        ParseListingAgrees(homebrewPrefix, otool, p);
      }
    }

    /** build_homebrew_index: fold the `find` output into the index; a failed or
        timed-out `find` leaves it as it was. */
    method BuildHomebrewIndex(find: FindOutcome)
      modifies this`homebrewIndex
      ensures homebrewIndex == IndexAfterFind(old(homebrewIndex), find, existing, resolve)
    {
      match find
      case FindFailed =>
      case FindOk(out) =>
        var lines := FindLines(out);
        ghost var start := homebrewIndex;
        for i := 0 to |lines|
          invariant homebrewIndex == IndexFold(start, lines[..i], existing, resolve)
        {
          assert lines[..i + 1][..i] == lines[..i];
          var path := lines[i];
          if path != [] {
            var libName := PathName(path);
            if libName !in homebrewIndex || Contains(path, PreferredLibDir) || Contains(path, CurrentDir) {
              if path in resolve && resolve[path] in existing {
                homebrewIndex := homebrewIndex[libName := resolve[path]];
              } else {
                homebrewIndex := homebrewIndex[libName := path];
              }
            }
          }
        }
        assert lines[..|lines|] == lines;
    }

    /** get_dependencies: the classified otool listing of `path`, memoised. otool runs
        only on a cache miss, and a failure is cached like any other answer. */
    method GetDependencies(path: string) returns (direct: seq<string>, rpath: seq<string>)
      requires Valid()
      modifies this`otoolCache, this`otoolLog
      ensures Valid()
      ensures Deps(direct, rpath) == Listed(listing, path)
      ensures path in otoolCache
      ensures old(path in otoolCache) ==> otoolCache == old(otoolCache) && otoolLog == old(otoolLog)
      ensures old(path !in otoolCache) ==>
        otoolCache == old(otoolCache)[path := Deps(direct, rpath)] && otoolLog == old(otoolLog) + [path]
    {
      if path in otoolCache {
        direct, rpath := otoolCache[path].direct, otoolCache[path].rpath;
        return;
      }
      direct, rpath := [], [];
      match OtoolOf(otool, path) {
        case OtoolFailed =>
        case OtoolOk(out) =>
          direct, rpath := ClassifyOtoolLines(OtoolLines(out));
      }
      assert Deps(direct, rpath) == DepsOf(homebrewPrefix, otool, path);
      otoolCache := otoolCache[path := Deps(direct, rpath)];
      AppendFresh(otoolLog, path);
      otoolLog := otoolLog + [path];
    }

    /** The loop over the lines of `otool -L` output: a reference under the Homebrew prefix
        is a direct dependency, an `@rpath/` reference to a dylib an rpath dependency, and
        every other line is passed over. */
    method ClassifyOtoolLines(lines: seq<string>) returns (direct: seq<string>, rpath: seq<string>)
      ensures Deps(direct, rpath) == ClassifyLines(homebrewPrefix, lines)
    {
      direct, rpath := [], [];
      for i := 0 to |lines|
        invariant Deps(direct, rpath) == ClassifyLines(homebrewPrefix, lines[..i])
      {
        assert lines[..i + 1][..i] == lines[..i];
        var line := Strip(lines[i]);
        if line != [] {
          var depPath := Strip(BeforeFirst(line, CompatibilityMarker));
          if StartsWith(depPath, homebrewPrefix) {
            direct := direct + [depPath];
          } else if StartsWith(depPath, RpathPrefix) && EndsWith(depPath, DylibSuffix) {
            rpath := rpath + [depPath];
          }
        }
      }
      assert lines[..|lines|] == lines;
    }

    /** resolve_rpath: the index entry for the reference's file name. */
    function ResolveRpathRef(rpathRef: string): (r: Option<string>)
      reads this
      ensures r.Some? <==> PathName(rpathRef) in homebrewIndex
    {
      ResolveRpath(homebrewIndex, rpathRef)
    }

    /** find_dependencies_recursive. Expands `path` unless the depth bound is exceeded, it is
        on the stack (a cycle) or already visited; then recurses into its existing direct
        dependencies and its resolvable rpath dependencies. */
    method FindDependenciesRecursive(path: string, depth: nat, maxDepth: nat)
      requires Valid()
      requires Reachable(G(), binaryPath, path)
      requires AllVisitedReachable()
      requires depthLimitHit || ClosedOutsideStack()
      modifies this`visited, this`processingStack, this`otoolCache, this`otoolLog, this`expansions, this`depthLimitHit
      ensures Valid()
      ensures AllVisitedReachable()
      ensures depthLimitHit || ClosedOutsideStack()
      ensures processingStack == old(processingStack)
      ensures old(visited) <= visited
      ensures old(depthLimitHit) ==> depthLimitHit
      ensures depth > maxDepth ==> visited == old(visited) && otoolLog == old(otoolLog) && depthLimitHit
      ensures depth <= maxDepth ==> path in visited
      decreases Budget(depth, maxDepth), 3
    {
      if depth > maxDepth {
        depthLimitHit := true;
        return;
      }
      if path in processingStack {
        return;
      }
      if path in visited {
        return;
      }
      Expand(path, depth, maxDepth);
    }

    /** The expanding part of find_dependencies_recursive: mark `path` visited and on the
        stack, walk its dependencies, and take it off the stack again. */
    method Expand(path: string, depth: nat, maxDepth: nat)
      requires depth <= maxDepth && path !in visited
      requires Valid()
      requires Reachable(G(), binaryPath, path)
      requires AllVisitedReachable()
      requires depthLimitHit || ClosedOutsideStack()
      modifies this`visited, this`processingStack, this`otoolCache, this`otoolLog, this`expansions, this`depthLimitHit
      ensures Valid()
      ensures AllVisitedReachable()
      ensures depthLimitHit || ClosedOutsideStack()
      ensures processingStack == old(processingStack)
      ensures visited >= old(visited) + {path}
      ensures old(depthLimitHit) ==> depthLimitHit
      decreases Budget(depth, maxDepth), 2
    {
      Enter(path);
      WalkDependencies(path, depth, maxDepth);
      Leave(path);
    }

    /** The body of find_dependencies_recursive between marking and unmarking `path`: look
        up its dependencies and walk the direct ones, then the rpath ones. Unless the depth
        bound was hit, every successor of `path` is visited afterwards. */
    method WalkDependencies(path: string, depth: nat, maxDepth: nat)
      requires depth <= maxDepth
      requires Valid()
      requires Reachable(G(), binaryPath, path)
      requires AllVisitedReachable()
      requires depthLimitHit || ClosedOutsideStack()
      modifies this`visited, this`processingStack, this`otoolCache, this`otoolLog, this`expansions, this`depthLimitHit
      ensures Valid()
      ensures AllVisitedReachable()
      ensures depthLimitHit || ClosedOutsideStack()
      ensures processingStack == old(processingStack)
      ensures old(visited) <= visited
      ensures old(depthLimitHit) ==> depthLimitHit
      ensures !depthLimitHit ==> forall q :: q in DirectTargets(Listed(listing, path).direct, existing) ==> q in visited
      ensures !depthLimitHit ==>
        forall q :: q in RpathTargets(Listed(listing, path).rpath, homebrewIndex, existing) ==> q in visited
      decreases Budget(depth, maxDepth), 1
    {
      var homebrewDeps, rpathDeps := GetDependencies(path);
      WalkDirectDeps(path, homebrewDeps, depth, maxDepth);
      WalkRpathDeps(path, rpathDeps, depth, maxDepth);
    }

    /** `visited.add(path)` and `processing_stack.add(path)`. */
    method Enter(path: string)
      requires path !in visited
      requires Valid()
      requires Reachable(G(), binaryPath, path)
      requires AllVisitedReachable()
      requires depthLimitHit || ClosedOutsideStack()
      modifies this`visited, this`processingStack, this`expansions
      ensures Valid()
      ensures AllVisitedReachable()
      ensures depthLimitHit || ClosedOutsideStack()
      ensures visited == old(visited) + {path} && processingStack == old(processingStack) + {path}
    {
      ghost var g := G();
      if !depthLimitHit {
        PushNode(g, path, visited, processingStack);
      }
      AppendFresh(expansions, path);
      visited := visited + {path};
      expansions := expansions + [path];
      processingStack := processingStack + {path};
      assert G() == g;
    }

    /** `processing_stack.remove(path)` once all of its successors have been walked. */
    method Leave(path: string)
      requires Valid()
      requires depthLimitHit || ClosedOutsideStack()
      requires !depthLimitHit ==> forall q :: q in DirectTargets(Listed(listing, path).direct, existing) ==> q in visited
      requires !depthLimitHit ==>
        forall q :: q in RpathTargets(Listed(listing, path).rpath, homebrewIndex, existing) ==> q in visited
      modifies this`processingStack
      ensures Valid()
      ensures depthLimitHit || ClosedOutsideStack()
      ensures processingStack == old(processingStack) - {path}
    {
      if !depthLimitHit {
        FinishNode(G(), path, visited, processingStack);
      }
      processingStack := processingStack - {path};
    }

    /** The loop over the direct Homebrew dependencies of `path`: every existing one is walked
        one level deeper. */
    method WalkDirectDeps(path: string, deps: seq<string>, depth: nat, maxDepth: nat)
      requires depth <= maxDepth
      requires Valid()
      requires Reachable(G(), binaryPath, path)
      requires AllVisitedReachable()
      requires depthLimitHit || ClosedOutsideStack()
      requires deps == Listed(listing, path).direct
      modifies this`visited, this`processingStack, this`otoolCache, this`otoolLog, this`expansions, this`depthLimitHit
      ensures Valid()
      ensures AllVisitedReachable()
      ensures depthLimitHit || ClosedOutsideStack()
      ensures processingStack == old(processingStack)
      ensures old(visited) <= visited
      ensures old(depthLimitHit) ==> depthLimitHit
      ensures forall q :: q in DirectTargets(deps, existing) ==> depthLimitHit || q in visited
      decreases Budget(depth, maxDepth), 0
    {
      for i := 0 to |deps|
        invariant Valid()
        invariant AllVisitedReachable()
        invariant depthLimitHit || ClosedOutsideStack()
        invariant processingStack == old(processingStack)
        invariant old(visited) <= visited
        invariant old(depthLimitHit) ==> depthLimitHit
        invariant forall j :: 0 <= j < i && deps[j] in existing ==> depthLimitHit || deps[j] in visited
      {
        var dep := deps[i];
        if dep in existing {
          DirectTargetsMembership(deps, existing, dep);
          ReachableStep(G(), binaryPath, path, dep);
          FindDependenciesRecursive(dep, depth + 1, maxDepth);
        }
      }
      forall q | q in DirectTargets(deps, existing) && !depthLimitHit
        ensures q in visited
      {
        DirectTargetsMembership(deps, existing, q);
      }
    }

    /** The loop over the rpath dependencies of `path`: every one that resolves through the
        index to a non-empty existing path is walked one level deeper. */
    method WalkRpathDeps(path: string, deps: seq<string>, depth: nat, maxDepth: nat)
      requires depth <= maxDepth
      requires Valid()
      requires Reachable(G(), binaryPath, path)
      requires AllVisitedReachable()
      requires depthLimitHit || ClosedOutsideStack()
      requires deps == Listed(listing, path).rpath
      modifies this`visited, this`processingStack, this`otoolCache, this`otoolLog, this`expansions, this`depthLimitHit
      ensures Valid()
      ensures AllVisitedReachable()
      ensures depthLimitHit || ClosedOutsideStack()
      ensures processingStack == old(processingStack)
      ensures old(visited) <= visited
      ensures old(depthLimitHit) ==> depthLimitHit
      ensures forall q :: q in RpathTargets(deps, homebrewIndex, existing) ==> depthLimitHit || q in visited
      decreases Budget(depth, maxDepth), 0
    {
      for k := 0 to |deps|
        invariant Valid()
        invariant AllVisitedReachable()
        invariant depthLimitHit || ClosedOutsideStack()
        invariant processingStack == old(processingStack)
        invariant old(visited) <= visited
        invariant old(depthLimitHit) ==> depthLimitHit
        invariant forall j, q :: 0 <= j < k && RpathLeadsTo(homebrewIndex, existing, deps[j], q) ==> depthLimitHit || q in visited
      {
        var resolved := ResolveRpathRef(deps[k]);
        if resolved.Some? && resolved.value != [] && resolved.value in existing {
          var q := resolved.value;
          assert RpathLeadsTo(homebrewIndex, existing, deps[k], q);
          RpathTargetsMembership(deps, homebrewIndex, existing, q);
          ReachableStep(G(), binaryPath, path, q);
          FindDependenciesRecursive(q, depth + 1, maxDepth);
        }
      }
      forall q | q in RpathTargets(deps, homebrewIndex, existing) && !depthLimitHit
        ensures q in visited
      {
        RpathTargetsMembership(deps, homebrewIndex, existing, q);
      }
    }

    /** copy_dylibs: select the `.dylib` files among the visited paths, keep one per name,
        and copy them; returns the absolute paths of the successful copies. `order` is the
        iteration order of the visited set. */
    method CopyDylibs(order: seq<string>, copyFails: map<string, CopyFailure>) returns (localDylibs: seq<string>)
      modifies this`bundle
      ensures var uniq := DedupByName(CopyCandidates(order, PathName(binaryPath), existing));
        localDylibs == CopiedPaths(uniq, frameworksDir, cwd, copyFails)
        && bundle == BundleAfterCopy(old(bundle), uniq, copyFails)
    {
      var dylibPaths := SelectDylibs(order);
      var unique := UniqueByName(dylibPaths);
      localDylibs := CopyEach(unique, copyFails);
    }

    /** The list comprehension of copy_dylibs: existing `.dylib` paths not named like the binary. */
    method SelectDylibs(order: seq<string>) returns (dylibPaths: seq<string>)
      ensures dylibPaths == CopyCandidates(order, PathName(binaryPath), existing)
    {
      var binaryName := PathName(binaryPath);
      dylibPaths := [];
      for i := 0 to |order|
        invariant dylibPaths == CopyCandidates(order[..i], binaryName, existing)
      {
        assert order[..i + 1][..i] == order[..i];
        var p := order[i];
        var name := PathName(p);
        if HasDylibSuffix(name) && name != binaryName && p in existing {
          dylibPaths := dylibPaths + [p];
        }
      }
      assert order[..|order|] == order;
    }

    /** The `unique_dylibs` dictionary: its keys are `seen`, its values in insertion order
        are `unique`. */
    method UniqueByName(dylibPaths: seq<string>) returns (unique: seq<string>)
      ensures unique == DedupByName(dylibPaths)
    {
      unique := [];
      var seen: set<string> := {};
      for i := 0 to |dylibPaths|
        invariant unique == DedupByName(dylibPaths[..i]) && seen == NamesOf(unique)
      {
        assert dylibPaths[..i + 1][..i] == dylibPaths[..i];
        var dylibName := PathName(dylibPaths[i]);
        if dylibName !in seen {
          NamesOfAppend(unique, dylibPaths[i]);
          unique := unique + [dylibPaths[i]];
          seen := seen + {dylibName};
        }
      }
      assert dylibPaths[..|dylibPaths|] == dylibPaths;
    }

    /** The copy loop: each name is copied to `frameworks/<name>`; a failed copy is left out
        of the result, and the Frameworks directory keeps whatever the failure left there. */
    method CopyEach(unique: seq<string>, copyFails: map<string, CopyFailure>) returns (localDylibs: seq<string>)
      modifies this`bundle
      ensures localDylibs == CopiedPaths(unique, frameworksDir, cwd, copyFails)
      ensures bundle == BundleAfterCopy(old(bundle), unique, copyFails)
    {
      localDylibs := [];
      for i := 0 to |unique|
        invariant localDylibs == CopiedPaths(unique[..i], frameworksDir, cwd, copyFails)
        invariant bundle == BundleAfterCopy(old(bundle), unique[..i], copyFails)
      {
        assert unique[..i + 1][..i] == unique[..i];
        var dylibName := PathName(unique[i]);
        var copied := CopyOne(dylibName, copyFails);
        if copied {
          localDylibs := localDylibs + [JoinPath(cwd, JoinPath(frameworksDir, dylibName))];
        }
      }
      assert unique[..|unique|] == unique;
    }

    /** One pass of the copy loop's `try`: copy the library named `name` into Frameworks
        and report whether it was copied; a failure leaves behind what it leaves. */
    method CopyOne(name: string, copyFails: map<string, CopyFailure>) returns (copied: bool)
      modifies this`bundle
      ensures copied <==> name !in copyFails
      ensures bundle == AfterCopyOf(old(bundle), name, copyFails)
    {
      if name !in copyFails {
        bundle := bundle + {name};
        return true;
      }
      copied := false;
      match copyFails[name] {
        case FailedKeepingOld =>
        case FailedRemoved => bundle := bundle - {name};
        case FailedLeavingCopy => bundle := bundle + {name};
      }
    }

    /** rewrite_dependencies: the install_name_tool actions for the main binary and for
        every copied library, in the order the script issues them. */
    method RewriteDependencies(order: seq<string>, localDylibs: seq<string>) returns (plan: seq<Action>)
      requires Valid()
      modifies this`otoolCache, this`otoolLog
      ensures Valid()
      ensures plan == RewritePlan(G(), binaryPath, order, localDylibs, bundle)
    {
      var mainPlan := RewriteMainBinary(order);
      var _, binaryRpath := GetDependencies(binaryPath);
      var rpathPlan := RewriteMainRpaths(binaryRpath);
      var libPlan := RewriteLibraries(localDylibs);
      plan := mainPlan + rpathPlan + libPlan;
    }

    /** The loop over the copied libraries, each rewritten from its own otool listing. */
    method RewriteLibraries(localDylibs: seq<string>) returns (plan: seq<Action>)
      requires Valid()
      modifies this`otoolCache, this`otoolLog
      ensures Valid()
      ensures plan == AllLibActions(localDylibs, listing, bundle)
    {
      plan := [];
      for k := 0 to |localDylibs|
        invariant Valid()
        invariant plan == AllLibActions(localDylibs[..k], listing, bundle)
      {
        assert localDylibs[..k + 1][..k] == localDylibs[..k];
        var homebrewDeps, rpathDeps := GetDependencies(localDylibs[k]);
        var libPlan := RewriteLibrary(localDylibs[k], homebrewDeps, rpathDeps);
        plan := plan + libPlan;
      }
      assert localDylibs[..|localDylibs|] == localDylibs;
    }

    /** The main binary: every existing visited path is changed to the bundled name. */
    method RewriteMainBinary(order: seq<string>) returns (plan: seq<Action>)
      ensures plan == BinaryChanges(binaryPath, order, existing)
    {
      plan := [];
      for i := 0 to |order|
        invariant plan == BinaryChanges(binaryPath, order[..i], existing)
      {
        assert order[..i + 1][..i] == order[..i];
        var dylibPath := order[i];
        if dylibPath in existing {
          plan := plan + [Change(binaryPath, dylibPath, ExecutableFrameworks + PathName(dylibPath))];
        }
      }
      assert order[..|order|] == order;
    }

    /** The main binary's rpath references whose file is in the Frameworks directory. */
    method RewriteMainRpaths(rpathDeps: seq<string>) returns (plan: seq<Action>)
      ensures plan == BinaryRpathChanges(binaryPath, rpathDeps, bundle)
    {
      plan := [];
      for i := 0 to |rpathDeps|
        invariant plan == BinaryRpathChanges(binaryPath, rpathDeps[..i], bundle)
      {
        assert rpathDeps[..i + 1][..i] == rpathDeps[..i];
        var dylibName := PathName(rpathDeps[i]);
        // (frameworks_dir / name).exists(); the empty name is the directory itself
        if dylibName == [] || dylibName in bundle {
          plan := plan + [Change(binaryPath, rpathDeps[i], ExecutableFrameworks + dylibName)];
        }
      }
      assert rpathDeps[..|rpathDeps|] == rpathDeps;
    }

    /** One copied library: set its id, then change its references to bundled siblings. */
    method RewriteLibrary(localPath: string, homebrewDeps: seq<string>, rpathDeps: seq<string>) returns (plan: seq<Action>)
      ensures plan == LibActions(localPath, Deps(homebrewDeps, rpathDeps), bundle)
    {
      var dylibName := PathName(localPath);
      plan := [SetId(localPath, LoaderPath + dylibName)];
      var directPlan := RewriteRefs(localPath, dylibName, homebrewDeps);
      var rpathPlan := RewriteRefs(localPath, dylibName, rpathDeps);
      plan := plan + directPlan + rpathPlan;
    }

    /** The references of one copied library that name another bundled library. */
    method RewriteRefs(localPath: string, dylibName: string, refs: seq<string>) returns (plan: seq<Action>)
      ensures plan == DepChanges(localPath, dylibName, refs, bundle)
    {
      plan := [];
      for j := 0 to |refs|
        invariant plan == DepChanges(localPath, dylibName, refs[..j], bundle)
      {
        assert refs[..j + 1][..j] == refs[..j];
        var depName := PathName(refs[j]);
        if depName != dylibName && (depName == [] || depName in bundle) {
          plan := plan + [Change(localPath, refs[j], LoaderPath + depName)];
        }
      }
      assert refs[..|refs|] == refs;
    }

    /** The first half of process: index Homebrew, then walk from the binary. The walk
        visits only paths reachable from the binary, and all of them unless the depth bound
        cut it short. */
    method CollectDependencies(find: FindOutcome)
      requires Valid()
      requires visited == {} && processingStack == {} && homebrewIndex == map[] && !depthLimitHit
      modifies this`homebrewIndex, this`visited, this`processingStack, this`otoolCache, this`otoolLog, this`expansions, this`depthLimitHit
      ensures Valid()
      ensures homebrewIndex == IndexAfterFind(map[], find, existing, resolve)
      ensures binaryPath in visited
      ensures visited <= ReachableFrom(G(), binaryPath)
      ensures !depthLimitHit ==> visited == ReachableFrom(G(), binaryPath)
    {
      BuildHomebrewIndex(find);
      ReachableRoot(G(), binaryPath);
      FindDependenciesRecursive(binaryPath, 0, MaxDepth);
      forall v | v in visited
        ensures v in ReachableFrom(G(), binaryPath)
      {
        ReachableInWorld(G(), binaryPath, v);
      }
      if !depthLimitHit {
        ClosedSetContainsReachable(G(), binaryPath, visited);
      }
    }

    /** process: check the inputs, index Homebrew, walk the binary's dependencies, copy,
        rewrite, and report whether the Tauri configuration was updated. */
    method Process(find: FindOutcome, copyFails: map<string, CopyFailure>, configWriteOk: bool) returns (success: bool, outcome: ProcessOutcome)
      requires Valid()
      requires visited == {} && processingStack == {} && homebrewIndex == map[] && !depthLimitHit
      modifies this
      ensures binaryPath !in existing ==> !success && outcome == BinaryMissing
      ensures binaryPath in existing && tauriConfig !in existing ==> !success && outcome == ConfigMissing
      ensures binaryPath in existing && tauriConfig in existing ==> outcome.Bundled? && success == configWriteOk
      ensures outcome.Bundled? ==>
        homebrewIndex == IndexAfterFind(map[], find, existing, resolve)
        && binaryPath in visited
        && visited <= ReachableFrom(G(), binaryPath)
        && (!depthLimitHit ==> visited == ReachableFrom(G(), binaryPath))
        && exists order :: Distinct(order) && Elems(order) == visited
             && outcome.localDylibs == CopiedPaths(DedupByName(CopyCandidates(order, PathName(binaryPath), existing)), frameworksDir, cwd, copyFails)
             && bundle == BundleAfterCopy(old(bundle), DedupByName(CopyCandidates(order, PathName(binaryPath), existing)), copyFails)
             && outcome.plan == RewritePlan(G(), binaryPath, order, outcome.localDylibs, bundle)
      ensures !outcome.Bundled? ==> unchanged(this)
      ensures Valid()
    {
      if binaryPath !in existing {
        return false, BinaryMissing;
      }
      if tauriConfig !in existing {
        return false, ConfigMissing;
      }
      CollectDependencies(find);
      if visited == {} {
        // The walk always records the binary itself, so the script's
        // "no Homebrew dylibs found" exit is never taken.
        assert false;
      }

      var order := Enumerate(visited);
      var localDylibs := CopyDylibs(order, copyFails);
      var plan := RewriteDependencies(order, localDylibs);
      // update_tauri_config: writes `localDylibs` into bundle.macOS.frameworks
      success := configWriteOk;
      outcome := Bundled(localDylibs, plan, configWriteOk);
    }
  }

  /** The script's `main`: fixed paths, the default prefix, exit status 0 exactly on success. */
  method RunScript(cwd: string, otool: map<string, OtoolOutcome>, existing: set<string>,
                   resolve: map<string, string>, frameworksBefore: set<string>,
                   find: FindOutcome, copyFails: map<string, CopyFailure>, configWriteOk: bool) returns (exitCode: int)
    ensures exitCode == 0 <==> ScriptBinaryPath in existing && ScriptTauriConfig in existing && configWriteOk
    ensures exitCode == 0 || exitCode == 1
  {
    var processor := new DylibProcessor(ScriptBinaryPath, ScriptTauriConfig, ScriptFrameworksDir,
                                        DefaultHomebrewPrefix, cwd, otool, existing, resolve, frameworksBefore);
    var success, _ := processor.Process(find, copyFails, configWriteOk);
    exitCode := if success then 0 else 1;
  }
}
