# psf-guard core, modelled in Dafny

psf-guard grades astrophotography frames recorded by N.I.N.A. Target Scheduler.
This project models the parts of it whose behaviour can be stated exactly and
proves properties of them:

- **The macOS dylib bundler** (`scripts/macos-opencv-dylibs.py`). It builds a
  name-to-path index of Homebrew libraries from `find` output. It classifies the
  `otool -L` lines of each binary, caching the result per path, and walks the
  dependency graph depth-first with a depth bound, a `visited` set and a
  processing stack. It then deduplicates the closure by file name, copies it into
  `Frameworks/`, and plans the `install_name_tool` rewrites.
  - Modules: `DylibSpec` holds the specification functions; `DylibBundler` holds
    the `DylibProcessor` class, whose sets and dictionaries are fields its
    methods update.
  - otool, `find`, the filesystem, symlink resolution, file copies and the
    Tauri configuration write are oracles given to the constructor or to
    `Process`.
  - install_name_tool becomes the list of actions it would be given.
  - The main theorem: when the depth bound is never hit, `visited` is exactly
    the set of paths reachable from the binary.
- **Sequence analysis** (`src/sequence_analysis.rs`). This covers:
  - splitting frames into imaging sessions on timestamps;
  - the short-sequence fallback;
  - percentile normalisation that keeps missing metrics missing;
  - the EWMA temporal-anomaly score;
  - weighted scoring clamped to [0,1];
  - the ordered issue-classification ladder;
  - the summary buckets.

  `f64` is modelled as `real`. `SequenceSpec` holds the functions and lemmas;
  `SequenceAnalysis` holds the loop-based methods proved equal to them.
- **Directory tree** (`src/directory_tree.rs`). The filename index built by a
  recursive scan over an abstract directory tree, with the skip list and
  unreadable directories. Also covers lookups, FITS filtering, statistics and
  the age text.
- **Configuration** (`src/config.rs`). Defaults, merging of command-line
  options, getters with fallbacks, and the order of the validation checks.
- **Server state and envelope** (`src/server/state.rs`, `src/server/api.rs`,
  `src/models.rs`). The file-check cache and its expiry, construction of the
  application state, path helpers, the `ApiResponse` constructors, the
  refresh-status mapping, and `GradingStatus`.
- **Handler helpers** (`src/server/handlers.rs`). Covers:
  - file-name extraction;
  - status words;
  - filtering and paging in `get_images`, including the `i32`-to-`usize` cast of
    negative paging values;
  - the preview-size table;
  - the project and target cache refresh protocol and the file-check report;
  - the HTTP mapping of `AppError`.
- **Static front end** (`src/server/embedded_static.rs`,
  `src/server/static_file_service.rs`). Both services share the request-path
  rule and the cache-header rule (module `StaticRules`). They are modelled as
  decision functions over an abstract set of embedded or readable files.

Four behaviours of the code are kept as lemmas because they are easy to
overlook:

- The two static services disagree on files directly under `/assets/`.
  The embedded service tests the path after its leading slash is removed, so
  there only the extension decides (`EmbeddedStatic.TopLevelAssetsByExtensionOnly`).
  The disk service tests the joined path, so there the file is always
  long-lived (`StaticFileService.TopLevelAssetsLongLivedOnDisk`).
- The embedded service builds the HTML and `no-cache` headers for its
  single-page-application fallback but never attaches them, so an unknown
  route gets the index page with no Content-Type and no Cache-Control. The
  disk service sends both headers (`EmbeddedStatic.RootAndFallbackDiffer`,
  `StaticFileService.UnknownRouteHeadersDiffer`).
- The disk service's containment check never refuses a request and lets `..`
  through (`StaticFileService.ContainmentNeverRefuses`,
  `StaticFileService.DotDotNotFiltered`).
- In the classification ladder, wind shake can only be chosen when the
  background rise equals its threshold exactly: it needs a star drop above
  threshold, and the cloud and obstruction rules before it take every such
  drop whose background rise lies above or below the threshold
  (`SequenceSpec.WindShakeOnlyAtBackgroundThreshold`).

Shared helper modules: `Wrappers` (Option, Result), `Strings` (prefix, suffix,
substring, strip, split, last path segment, path joining, decimal text),
`Collections` (distinct sequences and enumeration of a set), `Sorting` (stable
insertion sort by a real key and order statistics).

## Model

| member | source | states |
|---|---|---|
| DylibSpec.PathNameOfJoin | scripts/macos-opencv-dylibs.py:38 | the name of `dir/name` is `name`, as `Path(path).name` |
| DylibSpec.LineRef | scripts/macos-opencv-dylibs.py:82-88 | a reference is only read from a line that is not blank after stripping |
| DylibSpec.ClassifyLines | scripts/macos-opencv-dylibs.py:77-93 | each otool line gives at most one reference |
| DylibSpec.ClassifyLinesAppend | scripts/macos-opencv-dylibs.py:77-93 | classification distributes over concatenated line lists, keeping line order in both lists |
| DylibSpec.ClassifyLinesMembership | scripts/macos-opencv-dylibs.py:82-93 | a reference is direct iff some line names it and it starts with the Homebrew prefix; it is an rpath reference iff some line names it, it does not start with the prefix, and it starts `@rpath/` and ends `.dylib` |
| DylibSpec.NamedByLineSnoc | scripts/macos-opencv-dylibs.py:77-93 | a reference is named by the lines plus one more iff the earlier lines or the last one name it |
| DylibSpec.OtoolLinesDropHeader | scripts/macos-opencv-dylibs.py:77 | the first line of otool's output (the binary's own path) is dropped and the rest is split on newlines |
| DylibSpec.Inspect | scripts/macos-opencv-dylibs.py:73-101 | a failed otool run yields no direct and no rpath dependencies |
| DylibSpec.ParseListingAgrees | scripts/macos-opencv-dylibs.py:62-101 | the precomputed listing answers every path exactly as classifying its otool outcome would |
| DylibSpec.IndexValue | scripts/macos-opencv-dylibs.py:47-54 | the stored index value is the resolved path when it exists, otherwise the found path itself |
| DylibSpec.IndexFoldKeys | scripts/macos-opencv-dylibs.py:36-39 | the index gains exactly the names of the non-empty found paths |
| DylibSpec.IndexFoldUntouched | scripts/macos-opencv-dylibs.py:36-54 | a name no found path carries keeps its earlier entry, or stays absent |
| DylibSpec.IndexFoldPreferredWins | scripts/macos-opencv-dylibs.py:43-54 | a path under `/opt/homebrew/lib/` or `/current/` decides its name's entry unless a later preferred path of the same name follows |
| DylibSpec.IndexFoldFirstWins | scripts/macos-opencv-dylibs.py:43-54 | otherwise the first path with a new name decides its entry |
| DylibSpec.ResolveRpath | scripts/macos-opencv-dylibs.py:103-106 | an rpath reference resolves iff the index holds its file name, and resolves to that entry |
| DylibSpec.DirectTargetsMembership | scripts/macos-opencv-dylibs.py:140-149 | the walk continues into exactly the direct dependencies that exist |
| DylibSpec.RpathTargetsMembership | scripts/macos-opencv-dylibs.py:152-162 | the walk continues into exactly the existing paths the index gives for the rpath references |
| DylibSpec.SuccessorExists | scripts/macos-opencv-dylibs.py:140-162 | every successor in the dependency graph is an existing path |
| DylibSpec.ReachableRoot | scripts/macos-opencv-dylibs.py:311-314 | the binary is reachable from itself, so the closure is never empty |
| DylibSpec.ReachableStep | scripts/macos-opencv-dylibs.py:140-162 | reachability is closed under graph successors |
| DylibSpec.WalkStaysInClosedSet | scripts/macos-opencv-dylibs.py:108-166 | a walk that starts in a set closed under successors stays in it |
| DylibSpec.ClosedSetContainsReachable | scripts/macos-opencv-dylibs.py:108-166 | a successor-closed set holding the root contains every reachable path |
| DylibSpec.CopyCandidatesMembership | scripts/macos-opencv-dylibs.py:171-174 | a copy candidate is a visited path ending `.dylib` that exists and is not named like the binary |
| DylibSpec.FirstWithName | scripts/macos-opencv-dylibs.py:177-181 | the chosen path for a name is one of the paths and carries that name |
| DylibSpec.DedupByNameShape | scripts/macos-opencv-dylibs.py:177-181 | deduplication keeps pairwise-distinct names, loses no name and invents no path |
| DylibSpec.DedupKeepsFirst | scripts/macos-opencv-dylibs.py:177-181 | every kept path is the first one with its name |
| DylibSpec.FirstWithNameAppend | scripts/macos-opencv-dylibs.py:177-181 | appending a path does not change the first path of a name already present |
| DylibSpec.FirstWithNameNew | scripts/macos-opencv-dylibs.py:177-181 | a path with a new name becomes the first path of that name |
| DylibSpec.CopiedPathsNames | scripts/macos-opencv-dylibs.py:188-208 | the copied files have pairwise-distinct names, namely the unique names minus those whose copy failed |
| DylibSpec.CopiedPathName | scripts/macos-opencv-dylibs.py:188-204 | a copy into `cwd/Frameworks/name` keeps the library's name |
| DylibSpec.BinaryChangesExactly | scripts/macos-opencv-dylibs.py:219-224 | the binary gets `-change p @executable_path/../Frameworks/<name>` exactly for the existing visited paths, with no other action |
| DylibSpec.BinaryRpathChangesExactly | scripts/macos-opencv-dylibs.py:227-233 | the binary's rpath references are changed exactly when the bundle holds their name |
| DylibSpec.DepChangesExactly | scripts/macos-opencv-dylibs.py:246-258 | a copied library's reference is changed to `@loader_path/<name>` exactly when the name differs from its own and is in the bundle |
| DylibSpec.LibActionsShape | scripts/macos-opencv-dylibs.py:236-258 | each copied library first gets its id set to `@loader_path/<name>`, then only such changes follow |
| DylibSpec.RewrittenRefsUnclassified | scripts/macos-opencv-dylibs.py:213-258 | no planned rewrite target would itself be classified again as a Homebrew or rpath reference |
| DylibSpec.AtReferenceUnclassified | scripts/macos-opencv-dylibs.py:90-93 | an `@executable_path` or `@loader_path` reference is neither direct nor rpath |
| DylibSpec.AllLibActionsNewRefs | scripts/macos-opencv-dylibs.py:236-258 | every change planned for a copied library points into `@loader_path/` |
| DylibBundler.BundleAfterCopyMembership | scripts/macos-opencv-dylibs.py:188-208 | after copying, Frameworks holds a copied name iff its copy succeeded, or failed after writing the new file, or failed at the chmod or unlink of a file already there; names not copied are kept as they were |
| DylibBundler.LeftoverCopyStaysBundled | scripts/macos-opencv-dylibs.py:188-208 | a copy failing after the file was written is missing from the returned copies but still present in Frameworks |
| DylibBundler.PushNode | scripts/macos-opencv-dylibs.py:128-129 | adding a path to both `visited` and the stack keeps every finished visited path's successors visited |
| DylibBundler.FinishNode | scripts/macos-opencv-dylibs.py:164-166 | leaving a path whose successors are all visited keeps that closure invariant |
| DylibBundler.ReachableInWorld | scripts/macos-opencv-dylibs.py:140-162 | every reachable path except the binary exists |
| DylibBundler.DylibProcessor.constructor | scripts/macos-opencv-dylibs.py:13-23 | the sets, caches and index start empty, and the oracles are stored |
| DylibBundler.DylibProcessor.BuildHomebrewIndex | scripts/macos-opencv-dylibs.py:25-60 | the index becomes the fold of the found lines, and is unchanged when `find` fails |
| DylibBundler.DylibProcessor.ClassifyOtoolLines | scripts/macos-opencv-dylibs.py:82-93 | the loop over the otool lines computes the classification of those lines: prefixed references as direct dependencies, `@rpath/...dylib` references as rpath dependencies, both in line order |
| DylibBundler.DylibProcessor.GetDependencies | scripts/macos-opencv-dylibs.py:62-101 | returns the classified dependencies of the path; a cached path (failures included) is answered without running otool, an uncached one runs it exactly once |
| DylibBundler.DylibProcessor.ResolveRpathRef | scripts/macos-opencv-dylibs.py:103-106 | resolves iff the index holds the reference's name |
| DylibBundler.DylibProcessor.FindDependenciesRecursive | scripts/macos-opencv-dylibs.py:108-166 | the stack is restored on return and `visited` only grows and stays within the reachable set; a call beyond the depth bound adds nothing; otherwise the path becomes visited |
| DylibBundler.DylibProcessor.Expand | scripts/macos-opencv-dylibs.py:124-166 | expanding an unvisited path marks it visited and restores the stack |
| DylibBundler.DylibProcessor.WalkDependencies | scripts/macos-opencv-dylibs.py:135-162 | after the dependency lookup and both loops, every direct and every resolvable rpath successor of the path is visited unless the depth bound was hit, and the stack is as before |
| DylibBundler.DylibProcessor.Enter | scripts/macos-opencv-dylibs.py:124-129 | the path is added to both `visited` and the processing stack |
| DylibBundler.DylibProcessor.Leave | scripts/macos-opencv-dylibs.py:164-166 | the path is removed from the processing stack, keeping the closure invariant |
| DylibBundler.DylibProcessor.WalkDirectDeps | scripts/macos-opencv-dylibs.py:140-149 | afterwards every existing direct dependency is visited, unless the depth bound was hit |
| DylibBundler.DylibProcessor.WalkRpathDeps | scripts/macos-opencv-dylibs.py:152-162 | afterwards every rpath target the index resolves is visited, unless the depth bound was hit |
| DylibBundler.DylibProcessor.CopyDylibs | scripts/macos-opencv-dylibs.py:168-211 | returns the successful copies of the name-deduplicated candidates, and Frameworks afterwards holds what each success or failure left there |
| DylibBundler.DylibProcessor.SelectDylibs | scripts/macos-opencv-dylibs.py:171-174 | returns exactly the copy candidates, in walk order |
| DylibBundler.DylibProcessor.UniqueByName | scripts/macos-opencv-dylibs.py:177-181 | returns the first path per name |
| DylibBundler.DylibProcessor.CopyEach | scripts/macos-opencv-dylibs.py:188-208 | returns the destination of every successful copy, in order; Frameworks gains each successful name, keeps an old file whose removal failed, loses a name whose copy failed, and keeps a new file whose final chmod failed |
| DylibBundler.DylibProcessor.CopyOne | scripts/macos-opencv-dylibs.py:190-205 | reports a copy iff it did not fail; Frameworks gains the name on success or when a new file is left behind, keeps an old file whose removal failed, and loses the name when the copy itself failed |
| DylibBundler.DylibProcessor.RewriteDependencies | scripts/macos-opencv-dylibs.py:213-258 | the actions issued are the rewrite plan of the walk's graph |
| DylibBundler.DylibProcessor.RewriteLibraries | scripts/macos-opencv-dylibs.py:236-258 | the actions for the copied libraries are their planned actions, in order |
| DylibBundler.DylibProcessor.RewriteMainBinary | scripts/macos-opencv-dylibs.py:219-224 | the main binary's changes are exactly the planned ones |
| DylibBundler.DylibProcessor.RewriteMainRpaths | scripts/macos-opencv-dylibs.py:227-233 | the main binary's rpath changes are exactly the planned ones |
| DylibBundler.DylibProcessor.RewriteLibrary | scripts/macos-opencv-dylibs.py:239-258 | one copied library's actions are its id followed by its reference changes |
| DylibBundler.DylibProcessor.RewriteRefs | scripts/macos-opencv-dylibs.py:246-258 | each reference is changed only when it names another bundled library |
| DylibBundler.DylibProcessor.CollectDependencies | scripts/macos-opencv-dylibs.py:305-309 | after indexing and the walk, the binary is visited, `visited` lies within the reachable set, and equals it when the depth bound was never hit |
| DylibBundler.DylibProcessor.Process | scripts/macos-opencv-dylibs.py:290-336 | a missing binary or configuration fails first, in that order, and leaves the processor unchanged; otherwise the closure is the reachable set (without a depth hit), the copies, the final Frameworks contents and the rewrite plan over them all follow from one iteration order of it, and success is the configuration update's |
| DylibBundler.RunScript | scripts/macos-opencv-dylibs.py:338-347 | the exit status is 0 exactly when the binary and the configuration exist and the configuration update succeeds, else 1 |
| SequenceSpec.Clamp | src/sequence_analysis.rs:346 | the result lies within the bounds and leaves in-range values alone |
| SequenceSpec.NormalizedSumsToOne | src/sequence_analysis.rs:108-128 | normalised weights sum to 1 within tolerance |
| SequenceSpec.NormalizedProportional | src/sequence_analysis.rs:108-128 | when the total reaches the tolerance, normalising scales every weight by one positive factor |
| SequenceSpec.NormalizedNonnegative | src/sequence_analysis.rs:108-128 | non-negative weights stay non-negative |
| SequenceSpec.GapSecondsExact | src/sequence_analysis.rs:215 | the session gap in seconds is `minutes*60` while that fits in `i64`, 3600 for the default, and always an `i64` value |
| SequenceSpec.GapSecondsWraps | src/sequence_analysis.rs:215 | a large enough gap in minutes wraps to a negative number of seconds |
| SequenceSpec.Sessions | src/sequence_analysis.rs:215-233 | non-empty input gives at least one session; empty input gives none |
| SequenceSpec.SessionsFlatten | src/sequence_analysis.rs:215-233 | the sessions concatenated are the sorted input |
| SequenceSpec.SessionsNonEmpty | src/sequence_analysis.rs:215-233 | no session is empty |
| SequenceSpec.SessionsTight | src/sequence_analysis.rs:218-222 | within a session, adjacent timestamps differ by at most the gap |
| SequenceSpec.SessionsSeparated | src/sequence_analysis.rs:222-227 | between adjacent sessions, the difference is strictly greater than the gap |
| SequenceSpec.SplitPartitions | src/sequence_analysis.rs:207-236 | the sessions are a permutation of the input, sorted by timestamp and stable among equal timestamps; they are well split, and empty input gives no sessions |
| SequenceSpec.PresentEmpty | src/sequence_analysis.rs:397-400 | no values are present iff every metric is missing |
| SequenceSpec.PresentMembers | src/sequence_analysis.rs:397-400 | every present metric is among the values used for the percentiles |
| SequenceSpec.PresentSources | src/sequence_analysis.rs:397-400 | every value used for the percentiles comes from some frame |
| SequenceSpec.PercentileBoundsShape | src/sequence_analysis.rs:741-751 | the chosen p5 and p95 have at most the 5% index of the values below and at most the values past the 95% index above them |
| SequenceSpec.Normalize | src/sequence_analysis.rs:394-428 | normalisation keeps the length |
| SequenceSpec.NormalizeShape | src/sequence_analysis.rs:394-428 | a value is present after normalising iff it was before, lies in [0,1], and is 1 everywhere when p5 equals p95 |
| SequenceSpec.NormalizeMonotone | src/sequence_analysis.rs:394-428 | a better raw value never normalises to a lower score, in either direction of "better" |
| SequenceSpec.Deviation | src/sequence_analysis.rs:446-487 | a deviation from the baseline is never negative |
| SequenceSpec.TemporalScores | src/sequence_analysis.rs:431-526 | one temporal score per frame |
| SequenceSpec.TemporalScoreOf | src/sequence_analysis.rs:489-492 | the temporal score is the weighted sum of the four deviations |
| SequenceSpec.TemporalStep | src/sequence_analysis.rs:431-526 | each frame's score is computed against the baselines of the frames before it, which it then updates |
| SequenceSpec.TemporalScoresAt | src/sequence_analysis.rs:431-526 | frame i's score is its score against the baselines after frames 0..i-1 |
| SequenceSpec.BaselinesPresence | src/sequence_analysis.rs:494-518 | a baseline exists iff some earlier frame had that metric |
| SequenceSpec.FirstTemporalScoreZero | src/sequence_analysis.rs:431-526 | the first frame has no baseline and scores 0 |
| SequenceSpec.TemporalScoreNonnegative | src/sequence_analysis.rs:446-492 | with non-negative weights the temporal score is non-negative |
| SequenceSpec.SteadyBaselines | src/sequence_analysis.rs:494-518 | frames with identical metrics keep the baselines at those metrics |
| SequenceSpec.SteadySequenceScoresZero | src/sequence_analysis.rs:431-526 | a sequence of identical frames has temporal score 0 throughout |
| SequenceSpec.TemporalScoreAtOwnValues | src/sequence_analysis.rs:446-492 | a frame equal to its baselines scores 0 |
| SequenceSpec.WeightedSumStep | src/sequence_analysis.rs:754-764 | a missing metric adds nothing; a present one adds its weighted value and its weight |
| SequenceSpec.WeightedSumBounds | src/sequence_analysis.rs:754-764 | with non-negative weights and values in [0,1], 0 ≤ sum ≤ total weight |
| SequenceSpec.WeightedSumNothingPresent | src/sequence_analysis.rs:754-764 | with every metric missing, both sums are 0 |
| SequenceSpec.FinalScore | src/sequence_analysis.rs:343-346 | the final quality score lies in [0,1] |
| SequenceSpec.ClampInactive | src/sequence_analysis.rs:329-346 | for in-range metrics and non-negative weights, the base score is in [0,1] and the clamp changes nothing |
| SequenceSpec.LocalBaselineMedian | src/sequence_analysis.rs:660-672 | the local baseline is a median of the window's values |
| SequenceSpec.FractionalChange | src/sequence_analysis.rs:622-656 | the fractional change is never negative |
| SequenceSpec.SmallFlags | src/sequence_analysis.rs:676-703 | one flag per frame |
| SequenceSpec.CountTrue | src/sequence_analysis.rs:687-700 | the count is at most the width of the window |
| SequenceSpec.CountTrueIsCardinality | src/sequence_analysis.rs:687-700 | the count is the number of flagged positions in the window |
| SequenceSpec.IsGradualMeans | src/sequence_analysis.rs:676-703 | a change is gradual iff the frame has at least `window` predecessors and at least `window - 1` of the `window` steps leading to it are small |
| SequenceSpec.Classified | src/sequence_analysis.rs:528-619 | classification keeps one result per frame |
| SequenceSpec.ClassifiedShape | src/sequence_analysis.rs:528-619 | classification keeps scores and metrics; it leaves frames scoring at least 0.7, and sequences of fewer than two frames, untouched; it sets category and details together; and it gives UnknownDegradation only below 0.5 |
| SequenceSpec.WindShakeOnlyAtBackgroundThreshold | src/sequence_analysis.rs:553-598 | wind shake is chosen only when the background rise equals its threshold exactly |
| SequenceSpec.LadderPrecedence | src/sequence_analysis.rs:553-612 | clouds take precedence when both star drop and background rise exceed their thresholds; every frame below 0.5 gets a category; UnknownDegradation implies a score below 0.5 |
| SequenceSpec.BestValueIsBest | src/sequence_analysis.rs:767-783 | a best value exists iff some frame has the metric; it is one frame's value and no frame's value is better |
| SequenceSpec.SummaryCounts | src/sequence_analysis.rs:707-737 | the five buckets sum to the number of results, and the cloud count is the number of LikelyClouds results |
| SequenceSpec.TallyCounts | src/sequence_analysis.rs:719-734 | tallying one result adds exactly one to the buckets and counts a cloud event only for LikelyClouds |
| SequenceSpec.SummaryFlags | src/sequence_analysis.rs:728-734 | the focus-drift and tracking flags are set iff some result has that category |
| SequenceSpec.HasCategorySnoc | src/sequence_analysis.rs:728-734 | a category occurs in the results plus one more iff it occurs earlier or in the last |
| SequenceSpec.SummaryBuckets | src/sequence_analysis.rs:719-726 | each bucket counts the scores in its band (0.90/0.70/0.50/0.30) |
| SequenceSpec.NormalizeAll | src/sequence_analysis.rs:299-312 | each normalised column has one entry per frame |
| SequenceSpec.NormalizeAllShape | src/sequence_analysis.rs:299-312 | each normalised column has one entry per frame, and every frame's normalised metrics lie in [0,1] |
| SequenceSpec.UnclassifiedResultOf | src/sequence_analysis.rs:321-362 | a frame's result has the weighted score over the total weight (1 when no weight) damped by the temporal score and clamped, and carries no category yet |
| SequenceSpec.UnclassifiedResults | src/sequence_analysis.rs:321-362 | one result per frame, in order, each with its frame's id |
| SequenceSpec.UnclassifiedResultAt | src/sequence_analysis.rs:321-362 | result i is the scoring of frame i with its normalised metrics and temporal score |
| SequenceSpec.ScoreAll | src/sequence_analysis.rs:191-204 | one scored sequence per session |
| SequenceSpec.ScoreSpecShape | src/sequence_analysis.rs:239-390 | results align with the frames by id, every score is in [0,1], the buckets sum to the frame count, and a short sequence gets no reference values, no categories and all-ones normalised metrics |
| SequenceSpec.ScoreAllCounts | src/sequence_analysis.rs:191-204 | the scored sequences together hold as many results as the sessions hold frames |
| SequenceSpec.AnalyzeCoversAll | src/sequence_analysis.rs:191-204 | every input frame gets exactly one result |
| SequenceAnalysis.SplitIntoSequences | src/sequence_analysis.rs:207-236 | computes the stably sorted, session-split frames |
| SequenceAnalysis.GroupSessions | src/sequence_analysis.rs:215-233 | the loop builds exactly the session split of the sorted frames |
| SequenceAnalysis.ComputeTemporalScores | src/sequence_analysis.rs:431-526 | the loop computes exactly the temporal scores |
| SequenceAnalysis.WeightedSumAvailable | src/sequence_analysis.rs:754-764 | returns the weighted sum and the total weight of the present metrics |
| SequenceAnalysis.IsGradualChange | src/sequence_analysis.rs:676-703 | returns whether the change in the window is gradual |
| SequenceAnalysis.ClassifyIssues | src/sequence_analysis.rs:528-619 | the array is updated in place to the classified results |
| SequenceAnalysis.BuildSummary | src/sequence_analysis.rs:707-737 | returns the summary of the results |
| SequenceAnalysis.ScoreImages | src/sequence_analysis.rs:321-362 | returns one unclassified result per frame |
| SequenceAnalysis.ScoreImage | src/sequence_analysis.rs:322-361 | returns the scored result of one frame |
| SequenceAnalysis.ScoreSequence | src/sequence_analysis.rs:239-390 | returns the specified scored sequence, including the short-sequence fallback |
| SequenceAnalysis.Analyze | src/sequence_analysis.rs:191-204 | returns one scored sequence per session |
| Sorting.SortBySorted | src/sequence_analysis.rs:211-213 | sorting by timestamp orders the frames and permutes them |
| Sorting.SortByStable | src/sequence_analysis.rs:211-213 | frames with equal timestamps keep their relative order |
| Sorting.OrderStatistic | src/sequence_analysis.rs:741-751 | the k-th sorted value is an input value with at most k values below and at most n-k-1 above |
| DirectoryTree.TrimTrailingSlashes | src/directory_tree.rs:58 | the trimmed path is a prefix of the path and does not end with '/' |
| DirectoryTree.FileName | src/directory_tree.rs:58-59 | a file name, when there is one, is non-empty and not `..` |
| DirectoryTree.FileNameOfJoin | src/directory_tree.rs:86-98 | an entry joined to its directory has its own name as file name |
| DirectoryTree.Listing | src/directory_tree.rs:73-103 | a directory listing has at most one path per entry |
| DirectoryTree.Scanner.constructor | src/directory_tree.rs:26-29 | the scan starts with empty maps and zero counts |
| DirectoryTree.Scanner.ScanDirectory | src/directory_tree.rs:50-105 | the recursive scan updates the maps and counters exactly as the scan function of the tree says |
| DirectoryTree.Scanner.ScanOneEntry | src/directory_tree.rs:78-100 | one listing entry updates the maps and counters exactly as the scan function of that entry says: a subdirectory is scanned, a UTF-8-named file recorded, an unreadable entry passed over |
| DirectoryTree.Build | src/directory_tree.rs:22-47 | the tree is the scan of the root, and its file map records every reachable file under its name |
| DirectoryTree.ScanRecordsFiles | src/directory_tree.rs:50-105 | the scan appends every recorded file under its name and counts it |
| DirectoryTree.ScanEntriesRecordFiles | src/directory_tree.rs:76-100 | the entries of a directory contribute their files in order |
| DirectoryTree.ScanEntryRecordsFiles | src/directory_tree.rs:86-99 | one entry contributes its file, or the files of its subtree |
| DirectoryTree.AddAllAppend | src/directory_tree.rs:94-98 | recording two lists of files in turn is recording their concatenation |
| DirectoryTree.AddAllLookup | src/directory_tree.rs:94-98 | a name's list is its old list plus the new paths with that name, and the name is present iff either is non-empty |
| DirectoryTree.FilesNamedByPath | src/directory_tree.rs:94-98 | every recorded file is filed under its path's file name |
| DirectoryTree.EntryFilesNamedByPath | src/directory_tree.rs:76-100 | the same for the entries of a directory |
| DirectoryTree.FilesOfEntryNamedByPath | src/directory_tree.rs:86-99 | the same for one entry |
| DirectoryTree.SkippedOrUnreadableContributesNothing | src/directory_tree.rs:57-71 | a skipped or unreadable directory leaves the scan unchanged and records no file |
| DirectoryTree.SkippedChildContributesNothing | src/directory_tree.rs:57-64 | a subdirectory named DARK, FLAT, BIAS, .git, node_modules, target or .cache contributes nothing |
| DirectoryTree.DirectoriesCounted | src/directory_tree.rs:74-103 | the number of directories with a listing never exceeds the directory count, and the count only grows |
| DirectoryTree.EntriesDirectoriesCounted | src/directory_tree.rs:76-100 | the same across the entries of a directory |
| DirectoryTree.FindFile | src/directory_tree.rs:108-110 | a lookup succeeds iff the name is in the index |
| DirectoryTree.FindFileFindsAll | src/directory_tree.rs:108-110 | a lookup returns all paths with that name, or None when there are none |
| DirectoryTree.PathsNamedMembers | src/directory_tree.rs:94-98 | a path is listed under a name iff a file with that name and path was recorded |
| DirectoryTree.FindFilesMatchingMembers | src/directory_tree.rs:113-129 | a path is returned iff a recorded file with that path has a name the predicate accepts |
| DirectoryTree.MatchingKeyOf | src/directory_tree.rs:113-129 | every returned path lies under an accepted name |
| DirectoryTree.MatchingKeyListed | src/directory_tree.rs:113-129 | every path under an accepted name is returned |
| DirectoryTree.Stats | src/directory_tree.rs:152-161 | the unique-name count is the number of names, and the directory count the number of listed directories |
| Collections.DistinctCardinality | src/directory_tree.rs:152-161 | an enumeration of the names (or of any set) has as many entries as the set has elements |
| DirectoryTree.StatsOfBuild | src/directory_tree.rs:152-161 | the total file count is the number of files recorded, and the unique-name count is at most that |
| DirectoryTree.SumOfPathsNamed | src/directory_tree.rs:152-161 | summing the list lengths over the names counts every recorded file once |
| DirectoryTree.SumMatchesCount | src/directory_tree.rs:152-161 | the sum of list lengths equals the per-name count of recorded files |
| DirectoryTree.CountNamedAll | src/directory_tree.rs:152-161 | when every file's name is enumerated once, the count is the number of files |
| DirectoryTree.SumAtLeastCount | src/directory_tree.rs:152-161 | non-empty lists make the total at least the number of names |
| DirectoryTree.FormatAge | src/directory_tree.rs:179-188 | the age is written `{s}s` under a minute, `{m}m{s}s` under an hour, and `{h}h{m}m` otherwise, with the parts in range |
| DirectoryTree.FormatAgeMinutes | src/directory_tree.rs:183-184 | between a minute and an hour, minutes are 1..59 and minutes and seconds recompose the age |
| DirectoryTree.FormatAgeHours | src/directory_tree.rs:185-186 | from an hour on, hours and minutes bracket the age within a minute |
| Config.DirectoryProblem | src/config.rs:211-219 | no directory problem iff every directory exists and is a directory; otherwise the first bad one decides the error |
| Config.Config.constructor | src/config.rs:65-99 | defaults: port 3000, host 0.0.0.0, CORS on, database `schedulerdb.sqlite`, images `./images`, cache `./cache`, TTLs `5m`, no pregeneration |
| Config.Config.MergeWithCli | src/config.rs:125-153 | the database path, port and cache directory are replaced exactly when given, and the image directories only when given non-empty; host, CORS, TTLs and pregeneration are unchanged |
| Config.Config.GettersOnEmpty | src/config.rs:156-191 | absent settings read as port 3000, host 0.0.0.0, CORS on, cache `./cache` and TTLs of five minutes |
| Config.Config.Validate | src/config.rs:194-248 | accepts exactly the valid configurations, and reports the first failing check in order: database, directory list, each directory, port, zero TTL, TTL parse |
| Config.Config.UnparsableFileTtlReported | src/config.rs:238-245 | with every earlier check passing, an unparsable file TTL is the error reported |
| State.FileCheckCache.constructor | src/server/state.rs:29-36 | both maps empty, last update now, duration 60 s |
| State.FileCheckCache.Elapsed | src/server/state.rs:38-40 | elapsed time since the last update, 0 when the clock is behind |
| State.FileCheckCache.Clear | src/server/state.rs:42-46 | both maps emptied, last update reset, duration unchanged, so the cache is not expired |
| State.FileCheckCache.ExpiresAfterDuration | src/server/state.rs:38-40 | the cache is expired iff strictly more than its duration has elapsed |
| State.FileCheckCache.ExpiryIsMonotone | src/server/state.rs:38-40 | once expired, the cache stays expired |
| State.NewAppState | src/server/state.rs:50-78 | succeeds iff the database and image directory exist and the connection opens; a missing database is reported before a missing image directory |
| State.GetCachePath | src/server/state.rs:84-86 | the cache path ends with the file name |
| State.CachePathShape | src/server/state.rs:84-86 | the cache path lies under the cache directory and has the file name as its base name |
| State.GetImagePath | src/server/state.rs:88-90 | the image path ends with the relative path, and an absolute one replaces the directory |
| State.ImagePathUnderImageDir | src/server/state.rs:88-90 | a relative path is placed under the image directory |
| Api.ApiResponse.Success | src/server/api.rs:34-41 | a successful response carrying the data, with status Ready and no error |
| Api.ApiResponse.SuccessWithStatus | src/server/api.rs:43-50 | a successful response carrying the data and the given status |
| Api.ApiResponse.Loading | src/server/api.rs:52-59 | a successful response with no data and status Loading |
| Api.ApiResponse.Error | src/server/api.rs:61-68 | a failed response with the message, no data and no status |
| Api.FromRefreshStatus | src/server/api.rs:14-23 | NotNeeded maps to Ready, InProgressServeStale to Refreshing, and the other two to Loading |
| Api.FromRefreshStatusOnto | src/server/api.rs:14-23 | every API status is the image of some refresh status |
| Api.FromRefreshStatusNotInjective | src/server/api.rs:14-23 | two different refresh statuses share an API status |
| Api.SuccessIsReadyStatus | src/server/api.rs:34-50 | `success(d)` is `success_with_status(d, Ready)` |
| Models.Discriminant | src/models.rs:35-39 | discriminants are 0, 1 and 2 |
| Models.DiscriminantInjective | src/models.rs:35-39 | distinct statuses have distinct discriminants |
| Models.FromI32 | src/models.rs:113-120 | "Unknown" iff the value is outside 0..2; otherwise the name of the status with that discriminant |
| Models.FromI32OfDiscriminant | src/models.rs:113-120 | reading a status's discriminant back gives its name |
| Handlers.FileOnly | src/server/handlers.rs:261-264 | the file name contains no separator, ends the original, and is the original when that has no separator |
| Handlers.FileOnlyAfterSeparator | src/server/handlers.rs:729-733 | after either separator, the file name is the last segment |
| Handlers.ParseStatus | src/server/handlers.rs:471-476 | a status word is recognised iff it is pending, accepted or rejected |
| Handlers.ParseStatusWord | src/server/handlers.rs:471-476 | each status's word parses back to it |
| Handlers.StatusFilter | src/server/handlers.rs:471-476 | no word means no filter; a word filters by its status, or not at all when unknown |
| Handlers.GradeFromRequest | src/server/handlers.rs:668-673 | a known word gives its status; an unknown one gives BadRequest "Invalid status" |
| Handlers.UnknownStatusHandledDifferently | src/server/handlers.rs:668-673 | an unknown word drops the listing filter but fails grading with 400 |
| Handlers.AsUsize | src/server/handlers.rs:492-493 | non-negative values are kept; negative ones become huge |
| Handlers.FilterRows | src/server/handlers.rs:483-490 | keeps only matching rows, drawn from the input |
| Handlers.FilterRowsKeepsMatches | src/server/handlers.rs:483-490 | a row is kept iff it is in the input and matches every given id |
| Handlers.SkipTake | src/server/handlers.rs:495-498 | the page has the skip/take length and is the consecutive slice from the offset |
| Handlers.SkipTakeConsecutive | src/server/handlers.rs:495-498 | two consecutive pages form the page of their combined length |
| Handlers.GetImagesPage | src/server/handlers.rs:462-498 | the page holds at most the limit (default 100) of the kept rows, consecutive from the offset (default 0), in order |
| Handlers.DefaultPage | src/server/handlers.rs:492-493 | without paging parameters the page is the first 100 kept rows |
| Handlers.NegativePaging | src/server/handlers.rs:492-498 | a negative offset gives an empty page; a negative limit gives every kept row from the offset |
| Handlers.PreviewSize | src/server/handlers.rs:860-865 | "original" means no resize, "large" means 2000×2000, and everything else (default "screen") 1200×1200 |
| Handlers.RowsOf | src/server/handlers.rs:186-197 | a project's or target's rows are drawn from the input |
| Handlers.Take | src/server/handlers.rs:195-197 | a prefix of at most n rows, all rows when fewer |
| Handlers.CheckSamples | src/server/handlers.rs:254-272 | true iff some sample's file is found |
| Handlers.FlagsFor | src/server/handlers.rs:211-233 | the fresh map has an entry for exactly the checked ids |
| Handlers.FlagsForValue | src/server/handlers.rs:211-233 | each id's flag says whether one of its first samples has a file |
| Handlers.CheckAll | src/server/handlers.rs:211-233 | the loop computes the fresh map |
| Handlers.MergeInto | src/server/handlers.rs:410-417 | inserting the updates gives the old map overridden by them |
| Handlers.RefreshProjectCache | src/server/handlers.rs:164-247 | the project map is replaced wholesale by the fresh flags from 5 samples each; the target map is unchanged and the last update is now |
| Handlers.RefreshTargetCache | src/server/handlers.rs:375-427 | the target map is the old map overridden by the fresh flags from 3 samples each; the project map is unchanged and the last update is now |
| Handlers.TargetMergeKeepsOthers | src/server/handlers.rs:410-417 | an unchecked target keeps its entry |
| Handlers.OnlySamplesMatter | src/server/handlers.rs:195-197 | rows beyond the sample count do not affect the flag |
| Handlers.RowsOfAppend | src/server/handlers.rs:186-197 | selecting rows distributes over concatenation |
| Handlers.CountTrueFlags | src/server/handlers.rs:49 | the count of found projects is at most the number of projects |
| Handlers.FileCheckReport | src/server/handlers.rs:46-52 | found plus missing equals checked, which is the number of projects |
| Handlers.ErrorStatusCode | src/server/handlers.rs:1555-1593 | codes are 400, 404, 500 or 501; 500 iff a database or internal error; 400 iff a bad request |
| Handlers.ErrorResponse | src/server/handlers.rs:1555-1593 | the body is an error envelope with that code, carrying the request's or internal message where there is one |
| StaticRules.TrimLeadingSlashes | src/server/embedded_static.rs:13 | every leading '/' is removed and nothing else |
| StaticRules.TrimUnslashed | src/server/embedded_static.rs:13 | a path without a leading '/' is unchanged |
| StaticRules.TrimAbsorbsSlashes | src/server/embedded_static.rs:13 | any number of extra leading slashes gives the same path |
| StaticRules.IndexHtmlShape | src/server/embedded_static.rs:14-16 | the index page's name is relative, has no separator, and is not long-lived |
| StaticRules.RequestPath | src/server/embedded_static.rs:13-16 | the request path is relative and non-empty, is `index.html` exactly when nothing or `index.html` is left, and the trimmed path otherwise |
| StaticRules.CacheControl | src/server/embedded_static.rs:34-48 | immutable for a year iff the path contains `/assets/` or ends .js, .css or .wasm; one hour otherwise |
| StaticRules.NotFound | src/server/static_file_service.rs:129-134 | 404, "File not found", no headers |
| StaticRules.ServeAs | src/server/embedded_static.rs:50-61 | 200 with the file's bytes, its guessed type and the cache rule |
| StaticRules.RequestPathOfRoute | src/server/embedded_static.rs:13-16 | a route without a leading slash, requested as `/route`, names itself |
| StaticRules.IndexFallback | src/server/static_file_service.rs:61-72 | the disk service's fallback: 200 with the index bytes, typed as HTML and never cached |
| EmbeddedStatic.BareIndex | src/server/embedded_static.rs:65-78 | the embedded fallback: 200 with the index bytes and neither a Content-Type nor a Cache-Control header, since the header map built there is never attached |
| EmbeddedStatic.ServeEmbedded | src/server/embedded_static.rs:12-89 | only 200 or 404; an embedded file is served; a non-API miss falls back to the embedded index without headers; 404 iff missing and an API path or no index |
| EmbeddedStatic.ServesOnlyEmbedded | src/server/embedded_static.rs:19-80 | a 200 body is the requested file's contents or the index page's |
| EmbeddedStatic.MissingApiPathNotFound | src/server/embedded_static.rs:64-87 | a missing API path is 404, never the front end |
| EmbeddedStatic.RootAndFallbackDiffer | src/server/embedded_static.rs:14-80 | the root serves the index page with its guessed type and a one-hour cache header; an unknown route serves the same bytes with no type and no cache header |
| EmbeddedStatic.RootServesIndex | src/server/embedded_static.rs:14-61 | the site root is the index page served as a file, with the one-hour cache rule |
| EmbeddedStatic.UnknownRouteFallsBack | src/server/embedded_static.rs:63-80 | a route neither embedded nor under `api/` gets the header-less index fallback |
| EmbeddedStatic.TopLevelAssetsByExtensionOnly | src/server/embedded_static.rs:34-48 | a file directly under `/assets/` is immutable only by its extension |
| StaticFileService.NewService | src/server/static_file_service.rs:19-22 | the index page is `index.html` in the root |
| StaticFileService.ServeFile | src/server/static_file_service.rs:85-127 | a readable file is served with type and cache rule from its full path; an unreadable one is an error |
| StaticFileService.Call | src/server/static_file_service.rs:37-82 | only 200 or 404; a readable file is served; a non-API miss falls back to an existing, readable index; 404 iff unreadable and an API path or no usable index |
| StaticFileService.ContainmentNeverRefuses | src/server/static_file_service.rs:47-52 | the joined path always starts with the root |
| StaticFileService.DotDotNotFiltered | src/server/static_file_service.rs:47-52 | a `..` path passes the containment check unchanged |
| StaticFileService.CacheRuleSeesRoot | src/server/static_file_service.rs:101-117 | a root whose path contains `/assets/` makes every served file immutable |
| StaticFileService.TopLevelAssetsLongLivedOnDisk | src/server/static_file_service.rs:47-117 | on disk, a file directly under `/assets/` is always long-lived |
| StaticFileService.JoinedAssetsMarked | src/server/static_file_service.rs:47 | joining `assets/...` to a root without a trailing separator puts `/assets/` in the path |
| StaticFileService.UnknownRouteHeadersDiffer | src/server/static_file_service.rs:55-72 | for an unknown non-API route both services send the same index bytes with 200, the disk service as HTML with `no-cache`, the embedded one with no headers |
| StaticFileService.ServesOnlyReadable | src/server/static_file_service.rs:55-79 | a 200 body is the bytes of the requested file or of the index page |
| Strings.SplitJoinRoundTrip | scripts/macos-opencv-dylibs.py:36 | splitting on a separator and joining again gives back the text |
| Strings.NatToStringRoundTrip | src/directory_tree.rs:182-187 | the decimal text of a number reads back as that number |
| Collections.Enumerate | scripts/macos-opencv-dylibs.py:171-172 | an enumeration lists each element of the set exactly once |

## Left out

- Floating point: `f64` is `real`, so rounding, NaN and infinities are not modelled. The proved properties are structural (shape, order, counts, bounds, precedence), not numeric values.
- `i64` arithmetic on timestamp differences is unbounded here. Only the `minutes * 60` session gap is modelled with its `i64` wrap-around.
- Number formatting in classification details (`{:.0}` for the percentages, `{:.2}` for the eccentricity increase) is a parameter `fmt`, not modelled.
- `extract_metrics_from_metadata` and the JSON metadata it reads are not part of this model: frames arrive with their metrics already extracted.
- Configuration files (`from_file`, `to_file`, TOML) are not modelled. `humantime` duration parsing is a parameter `parse`.
- Opening the SQLite connection is a flag `openSucceeds`. The database layer (`src/db.rs`) is not part of this model; handlers receive its rows as inputs.
- `RefreshStatus` is declared here from its four variants; its own source file is not part of this model.
- `check_project_has_files` (handlers.rs:275-302) is not called anywhere and is not modelled.
- `find_fits_file` is an oracle `findFits`: whether the file of an image row is found.
- A database error aborting a refresh midway is not modelled: the rows are given in full.
- `serde_json` metadata parsing in `get_images` and in the file-name extraction is folded into an optional `fileName`.
- The "Invalid filename format" error at handlers.rs:731-732 cannot occur: the last segment of a split always exists. It is not modelled.
- MIME type guessing (`mime_guess`) is a parameter `mime`. The fallback for an invalid header value and non-UTF-8 paths (`to_str`) are not modelled.
- `Path::starts_with` and `Path::join` are string prefix and concatenation with '/'. Path normalisation, symlinks and `Path::file_name` normalisation are not modelled beyond trailing separators.
- Asynchronous handlers, locks, clocks (times are parameters), image processing, logging and printing are left out.
- DylibBundler.RunScript: the exceptions the script does not catch are not modelled. These are a missing `otool`, `find` or `install_name_tool` executable (`FileNotFoundError`/`OSError` from `subprocess.run`), a failing `mkdir` of the Frameworks directory, and a `UnicodeDecodeError` on tool output. Each would end the script with exit status 1. The outcome types have no such case, so the contract's "exit 0 when both files exist and the configuration is written" holds only when none of these is raised.
- DylibBundler.DylibProcessor.RewriteLibraries: the script sets the copied library's id (`install_name_tool -id`, scripts/macos-opencv-dylibs.py:242) before it reads that library's otool listing (:246). The model does not change the otool oracle, so its entry for `cwd/Frameworks/<name>` stands for the listing after the id change.
- DylibBundler.DylibProcessor.GetDependencies: only the failures the script catches (timeout, nonzero exit) are an `OtoolFailed` outcome; an uncaught exception from running otool is not modelled (see RunScript).
- DylibBundler.DylibProcessor.BuildHomebrewIndex: only a timeout or a nonzero exit of `find` is a `FindFailed` outcome; an uncaught exception from running `find` is not modelled (see RunScript).
- Subprocess invocation in the bundler is left out: otool, `find` and install_name_tool appear only through their outcomes or planned actions. A copy failure is given per name by what it leaves in Frameworks: the old file, nothing, or the new file.
- DylibBundler.DylibProcessor.Process: the rewriting of `tauri.macos.conf.json` (`update_tauri_config`, scripts/macos-opencv-dylibs.py:262-288) is a flag `configWriteOk`, so the configuration's contents are not modelled.
- `get_directory_contents` and `get_all_filenames` (directory_tree.rs:142-150) are plain map reads and are not modelled.
- DirectoryTree.Stats: the age in the statistics uses an unbounded integer clock, with a clock that has gone back treated as age zero.
