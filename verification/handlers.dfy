/** The request handlers' own logic (src/server/handlers.rs): the file name
    taken from a stored path, the grading-status strings, the filter and
    paging of the image listing, the preview size, the two refresh
    protocols of the file-existence cache, and the HTTP status each error
    becomes. Database rows are inputs; whether an image's file is found on
    disk is an oracle. */
module Handlers {
  import opened Wrappers
  import opened Strings
  import opened Collections
  import opened Models
  import opened Api
  import opened State

  // ---------------------------------------------------------------------
  // File names

  /** The separators a stored path may use: Windows and Unix. */
  const PathSeparators: set<char> := {'\\', '/'}

  /** `filename.split(&['\\', '/']).next_back()`: the last segment of the stored path.
      The split always yields a last piece, so this never fails. */
  function FileOnly(filename: string): (name: string)
    ensures forall i :: 0 <= i < |name| ==> name[i] != '\\' && name[i] != '/'
    ensures EndsWith(filename, name)
    ensures '\\' !in filename && '/' !in filename ==> name == filename
  {
    LastSegmentShape(filename, PathSeparators);
    if '\\' !in filename && '/' !in filename then
      LastSegmentOfPlain(filename, PathSeparators);
      LastSegment(filename, PathSeparators)
    else
      LastSegment(filename, PathSeparators)
  }

  /** The name after the last separator, whichever kind it is. */
  lemma FileOnlyAfterSeparator(dir: string, sep: char, name: string)
    requires sep in PathSeparators
    requires '\\' !in name && '/' !in name
    ensures FileOnly(dir + [sep] + name) == name
  {
    LastSegmentAfterSeparator(dir, sep, name, PathSeparators);
  }

  // ---------------------------------------------------------------------
  // Grading-status strings

  /** The three status words the API accepts. */
  function ParseStatus(s: string): (r: Option<GradingStatus>)
    ensures r.Some? <==> s in {"pending", "accepted", "rejected"}
  {
    match s
    case "pending" => Some(Pending)
    case "accepted" => Some(Accepted)
    case "rejected" => Some(Rejected)
    case _ => None
  }

  /** The word for each status, as the client sends it. */
  function StatusWord(g: GradingStatus): string {
    match g
    case Pending => "pending"
    case Accepted => "accepted"
    case Rejected => "rejected"
  }

  lemma ParseStatusWord(g: GradingStatus)
    ensures ParseStatus(StatusWord(g)) == Some(g)
  {
  }

  /** `get_images`: an unknown status word drops the status filter. */
  function StatusFilter(status: Option<string>): (r: Option<GradingStatus>)
    ensures status.None? ==> r.None?
    ensures status.Some? ==> r == ParseStatus(status.value)
  {
    if status.None? then None else ParseStatus(status.value)
  }

  /** `update_image_grade`: an unknown status word is a bad request. */
  function GradeFromRequest(status: string): (r: Result<GradingStatus, AppError>)
    ensures r.Ok? <==> ParseStatus(status).Some?
    ensures r.Ok? ==> r.value == ParseStatus(status).value
    ensures r.Err? ==> r.error == BadRequest("Invalid status")
  {
    match ParseStatus(status)
    case Some(g) => Ok(g)
    case None => Err(BadRequest("Invalid status"))
  }

  /** The same unknown word means "no filter" when listing and an error when grading. */
  lemma UnknownStatusHandledDifferently(word: string)
    requires word !in {"pending", "accepted", "rejected"}
    ensures StatusFilter(Some(word)).None?
    ensures GradeFromRequest(word).Err? && ErrorStatusCode(GradeFromRequest(word).error) == 400
  {
  }

  // ---------------------------------------------------------------------
  // The image listing

  /** The columns of an image row the handlers read; `fileName` is the metadata's
      `FileName`, absent when the metadata does not parse or lacks it. */
  datatype AcquiredImage = AcquiredImage(id: i32, projectId: i32, targetId: i32, fileName: Option<string>)

  /** A row of `query_images`: the image with its project and target names. */
  datatype ImageRow = ImageRow(image: AcquiredImage, projectName: string, targetName: string)

  datatype ImageQuery = ImageQuery(projectId: Option<i32>, targetId: Option<i32>, status: Option<string>,
                                   limit: Option<i32>, offset: Option<i32>)

  /** The size of the address space `as usize` converts into. */
  const UsizeModulus: int := 0x1_0000_0000_0000_0000

  /** `x as usize` on a 64-bit target: a negative value wraps around to a huge one. */
  function AsUsize(x: i32): (u: nat)
    ensures x >= 0 ==> u == x as int
    ensures x < 0 ==> u >= UsizeModulus - 0x8000_0000
  {
    if x >= 0 then x as int else UsizeModulus + x as int
  }

  /** A row passes when it belongs to the requested project and target, where given. */
  predicate MatchesQuery(q: ImageQuery, row: ImageRow) {
    (q.projectId.None? || row.image.projectId == q.projectId.value)
    && (q.targetId.None? || row.image.targetId == q.targetId.value)
  }

  /** The rows that pass, in order. */
  function FilterRows(q: ImageQuery, rows: seq<ImageRow>): (kept: seq<ImageRow>)
    ensures |kept| <= |rows|
    ensures forall i :: 0 <= i < |kept| ==> MatchesQuery(q, kept[i]) && kept[i] in rows
  {
    if rows == [] then []
    else
      var init := FilterRows(q, rows[..|rows| - 1]);
      var last := rows[|rows| - 1];
      if MatchesQuery(q, last) then init + [last] else init
  }

  /** Nothing that passes is dropped. */
  lemma {:induction false} FilterRowsKeepsMatches(q: ImageQuery, rows: seq<ImageRow>, row: ImageRow)
    ensures row in FilterRows(q, rows) <==> row in rows && MatchesQuery(q, row)
  {
    if rows != [] {
      FilterRowsKeepsMatches(q, rows[..|rows| - 1], row);
      assert rows == rows[..|rows| - 1] + [rows[|rows| - 1]];
    }
  }

  /** `skip(offset).take(limit)`. */
  function SkipTake<T>(xs: seq<T>, offset: nat, limit: nat): (page: seq<T>)
    ensures |page| == (if offset >= |xs| then 0 else if |xs| - offset < limit then |xs| - offset else limit)
    ensures forall i :: 0 <= i < |page| ==> page[i] == xs[offset + i]
  {
    if offset >= |xs| then []
    else if |xs| - offset < limit then xs[offset..]
    else xs[offset..offset + limit]
  }

  /** Consecutive pages join up: a page followed by the next is the page spanning both. */
  lemma SkipTakeConsecutive<T>(xs: seq<T>, offset: nat, a: nat, b: nat)
    ensures SkipTake(xs, offset, a) + SkipTake(xs, offset + a, b) == SkipTake(xs, offset, a + b)
  {
    var l, r, whole := SkipTake(xs, offset, a), SkipTake(xs, offset + a, b), SkipTake(xs, offset, a + b);
    assert |l + r| == |whole|;
    forall i | 0 <= i < |whole| ensures (l + r)[i] == whole[i] {
      if i >= |l| {
        assert (l + r)[i] == r[i - |l|];
      }
    }
  }

  /** `get_images` after the database query: filter by project and target, then skip
      `offset` (default 0) and take `limit` (default 100), both converted to `usize`. */
  function GetImagesPage(q: ImageQuery, rows: seq<ImageRow>): (page: seq<ImageRow>)
    ensures |page| <= AsUsize(q.limit.UnwrapOr(100))
    ensures var kept, offset := FilterRows(q, rows), AsUsize(q.offset.UnwrapOr(0));
      forall i :: 0 <= i < |page| ==> offset + i < |kept| && page[i] == kept[offset + i]
  {
    SkipTake(FilterRows(q, rows), AsUsize(q.offset.UnwrapOr(0)), AsUsize(q.limit.UnwrapOr(100)))
  }

  /** Without paging parameters the first hundred matching rows come back. */
  lemma DefaultPage(q: ImageQuery, rows: seq<ImageRow>)
    requires q.limit.None? && q.offset.None?
    ensures GetImagesPage(q, rows) == SkipTake(FilterRows(q, rows), 0, 100)
  {
  }

  /** A negative offset wraps to a huge one and empties the page; a negative limit wraps
      to a huge one and lifts the limit. */
  lemma NegativePaging(q: ImageQuery, rows: seq<ImageRow>)
    requires |rows| < UsizeModulus - 0x8000_0000
    ensures q.offset.Some? && q.offset.value < 0 ==> GetImagesPage(q, rows) == []
    ensures q.limit.Some? && q.limit.value < 0 ==>
      GetImagesPage(q, rows) == SkipTake(FilterRows(q, rows), AsUsize(q.offset.UnwrapOr(0)), |rows|)
  {
  }

  // ---------------------------------------------------------------------
  // Preview size

  datatype Dimensions = Dimensions(width: nat, height: nat)

  /** The maximum preview dimensions for the `size` option (default "screen"): large is
      2000 square, original is unresized, and anything else is screen size. */
  function PreviewSize(size: Option<string>): (d: Option<Dimensions>)
    ensures d.None? <==> size == Some("original")
    ensures d == Some(Dimensions(2000, 2000)) <==> size == Some("large")
    ensures d.Some? ==> d.value == Dimensions(2000, 2000) || d.value == Dimensions(1200, 1200)
  {
    match size.UnwrapOr("screen")
    case "large" => Some(Dimensions(2000, 2000))
    case "screen" => Some(Dimensions(1200, 1200))
    case "original" => None
    case _ => Some(Dimensions(1200, 1200))
  }

  // ---------------------------------------------------------------------
  // File-existence cache refresh

  /** How many sample images are checked per project, and per target. */
  const ProjectSamples: nat := 5
  const TargetSamples: nat := 3

  /** Whether an image's file is found: its metadata names a file, and looking that file
      name up for the image and its target succeeds. */
  predicate FileFound(findFits: (AcquiredImage, string, string) -> bool, row: ImageRow) {
    row.image.fileName.Some? && findFits(row.image, row.targetName, FileOnly(row.image.fileName.value))
  }

  /** The rows of one project (or one target), in query order. */
  function RowsOf(rows: seq<ImageRow>, ofProject: bool, id: i32): (r: seq<ImageRow>)
    ensures |r| <= |rows|
    ensures forall i :: 0 <= i < |r| ==> r[i] in rows
  {
    if rows == [] then []
    else
      var init := RowsOf(rows[..|rows| - 1], ofProject, id);
      var last := rows[|rows| - 1];
      if (if ofProject then last.image.projectId else last.image.targetId) == id then init + [last] else init
  }

  /** The first `n` rows of `rows`. */
  function Take<T>(rows: seq<T>, n: nat): (r: seq<T>)
    ensures |r| <= n && |r| <= |rows| && r == rows[..|r|]
    ensures |r| == n || r == rows
  {
    if |rows| <= n then rows else rows[..n]
  }

  /** Whether some of the samples has its file on disk, checking them in order and
      stopping at the first found. */
  method CheckSamples(findFits: (AcquiredImage, string, string) -> bool, samples: seq<ImageRow>)
    returns (found: bool)
    ensures found <==> exists i :: 0 <= i < |samples| && FileFound(findFits, samples[i])
  {
    for i := 0 to |samples|
      invariant forall j :: 0 <= j < i ==> !FileFound(findFits, samples[j])
    {
      if samples[i].image.fileName.Some? {
        var fileOnly := FileOnly(samples[i].image.fileName.value);
        if findFits(samples[i].image, samples[i].targetName, fileOnly) {
          return true;
        }
      }
    }
    return false;
  }

  /** Whether a project's (or target's) first `n` images include one whose file is found. */
  predicate HasFiles(findFits: (AcquiredImage, string, string) -> bool, rows: seq<ImageRow>,
                     ofProject: bool, id: i32, n: nat)
  {
    var samples := Take(RowsOf(rows, ofProject, id), n);
    exists i :: 0 <= i < |samples| && FileFound(findFits, samples[i])
  }

  /** The freshly computed flags for `ids`, later ids overwriting earlier equal ones. */
  function FlagsFor(findFits: (AcquiredImage, string, string) -> bool, rows: seq<ImageRow>,
                    ofProject: bool, ids: seq<i32>, n: nat): (flags: map<i32, bool>)
    ensures flags.Keys == Elems(ids)
  {
    if ids == [] then map[]
    else
      var last := ids[|ids| - 1];
      assert Elems(ids) == Elems(ids[..|ids| - 1]) + {last};
      FlagsFor(findFits, rows, ofProject, ids[..|ids| - 1], n)[last := HasFiles(findFits, rows, ofProject, last, n)]
  }

  /** Each flag is the outcome of checking that id's samples. */
  lemma {:induction false} FlagsForValue(findFits: (AcquiredImage, string, string) -> bool, rows: seq<ImageRow>,
                                         ofProject: bool, ids: seq<i32>, n: nat, id: i32)
    requires id in Elems(ids)
    ensures FlagsFor(findFits, rows, ofProject, ids, n)[id] == HasFiles(findFits, rows, ofProject, id, n)
  {
    var last := ids[|ids| - 1];
    if id != last {
      assert Elems(ids) == Elems(ids[..|ids| - 1]) + {last};
      FlagsForValue(findFits, rows, ofProject, ids[..|ids| - 1], n, id);
    }
  }

  /** The flags for `ids`, checking each id's first `n` images in turn. */
  method CheckAll(findFits: (AcquiredImage, string, string) -> bool, rows: seq<ImageRow>,
                  ofProject: bool, ids: seq<i32>, n: nat)
    returns (updates: map<i32, bool>)
    ensures updates == FlagsFor(findFits, rows, ofProject, ids, n)
  {
    updates := map[];
    for k := 0 to |ids|
      invariant updates == FlagsFor(findFits, rows, ofProject, ids[..k], n)
    {
      assert ids[..k + 1][..k] == ids[..k];
      var samples := Take(RowsOf(rows, ofProject, ids[k]), n);
      var hasFiles := CheckSamples(findFits, samples);
      updates := updates[ids[k] := hasFiles];
    }
    assert ids[..|ids|] == ids;
  }

  /** Inserts every entry of `updates` into `base`, one key at a time in some order. */
  method MergeInto(base: map<i32, bool>, updates: map<i32, bool>) returns (merged: map<i32, bool>)
    ensures merged == base + updates
  {
    merged := base;
    var rest := updates.Keys;
    while rest != {}
      invariant rest <= updates.Keys
      invariant merged.Keys == base.Keys + (updates.Keys - rest)
      invariant forall t :: t in merged ==> merged[t] == if t in updates && t !in rest then updates[t] else base[t]
      decreases |rest|
    {
      var t :| t in rest;
      merged := merged[t := updates[t]];
      rest := rest - {t};
    }
  }

  /** `refresh_project_cache`: every listed project is checked against its first five
      images, and the resulting map replaces the project map wholesale; the target map
      is untouched and the stamp is reset. */
  method RefreshProjectCache(cache: FileCheckCache, projectIds: seq<i32>, rows: seq<ImageRow>,
                             findFits: (AcquiredImage, string, string) -> bool, now: int)
    modifies cache
    ensures cache.projectsWithFiles == FlagsFor(findFits, rows, true, projectIds, ProjectSamples)
    ensures cache.targetsWithFiles == old(cache.targetsWithFiles)
    ensures cache.lastUpdated == now && cache.cacheDuration == old(cache.cacheDuration)
  {
    var updates := CheckAll(findFits, rows, true, projectIds, ProjectSamples);
    cache.projectsWithFiles := updates;
    cache.lastUpdated := now;
  }

  /** `refresh_target_cache`: every listed target is checked against its first three
      images, and the results are merged into the target map: checked targets are
      overwritten, all others keep their entries; the project map is untouched and the
      stamp is reset. */
  method RefreshTargetCache(cache: FileCheckCache, targetIds: seq<i32>, rows: seq<ImageRow>,
                            findFits: (AcquiredImage, string, string) -> bool, now: int)
    modifies cache
    ensures cache.targetsWithFiles == old(cache.targetsWithFiles) + FlagsFor(findFits, rows, false, targetIds, TargetSamples)
    ensures cache.projectsWithFiles == old(cache.projectsWithFiles)
    ensures cache.lastUpdated == now && cache.cacheDuration == old(cache.cacheDuration)
  {
    var updates := CheckAll(findFits, rows, false, targetIds, TargetSamples);
    var merged := MergeInto(cache.targetsWithFiles, updates);
    cache.targetsWithFiles := merged;
    cache.lastUpdated := now;
  }

  /** The merge keeps every target that was not checked. */
  lemma TargetMergeKeepsOthers(old_: map<i32, bool>, updates: map<i32, bool>, t: i32)
    requires t in old_ && t !in updates
    ensures t in old_ + updates && (old_ + updates)[t] == old_[t]
  {
  }

  /** Only the first `n` images of a project or target are ever looked at: images beyond
      them cannot change the outcome. */
  lemma {:induction false} OnlySamplesMatter(findFits: (AcquiredImage, string, string) -> bool, rows: seq<ImageRow>,
                                             extra: seq<ImageRow>, ofProject: bool, id: i32, n: nat)
    requires |RowsOf(rows, ofProject, id)| >= n
    ensures HasFiles(findFits, rows + extra, ofProject, id, n) == HasFiles(findFits, rows, ofProject, id, n)
  {
    RowsOfAppend(rows, extra, ofProject, id);
    var a, b := RowsOf(rows, ofProject, id), RowsOf(extra, ofProject, id);
    assert Take(a + b, n) == (a + b)[..n] == a[..n] == Take(a, n);
  }

  lemma {:induction false} RowsOfAppend(a: seq<ImageRow>, b: seq<ImageRow>, ofProject: bool, id: i32)
    ensures RowsOf(a + b, ofProject, id) == RowsOf(a, ofProject, id) + RowsOf(b, ofProject, id)
    decreases |b|
  {
    if b == [] {
      assert a + b == a;
    } else {
      var c := a + b;
      assert c[..|c| - 1] == a + b[..|b| - 1];
      RowsOfAppend(a, b[..|b| - 1], ofProject, id);
    }
  }

  /** `refresh_file_cache`'s report: projects checked, those with files, those without. */
  datatype FileCheckCounts = FileCheckCounts(imagesChecked: nat, filesFound: nat, filesMissing: nat)

  /** The number of true flags among `keys`. */
  function CountTrueFlags(flags: map<i32, bool>, keys: seq<i32>): (c: nat)
    requires Elems(keys) <= flags.Keys
    ensures c <= |keys|
  {
    if keys == [] then 0
    else
      var last := keys[|keys| - 1];
      assert last in Elems(keys);
      assert Elems(keys[..|keys| - 1]) <= Elems(keys);
      CountTrueFlags(flags, keys[..|keys| - 1]) + (if flags[last] then 1 else 0)
  }

  /** The report after a project refresh: the found count never exceeds the total, so the
      missing count is their difference without underflow. */
  function FileCheckReport(projects: map<i32, bool>, order: seq<i32>): (r: FileCheckCounts)
    requires Distinct(order) && Elems(order) == projects.Keys
    ensures r.filesFound + r.filesMissing == r.imagesChecked == |projects|
  {
    DistinctCardinality(order);
    var found := CountTrueFlags(projects, order);
    FileCheckCounts(|projects|, found, |projects| - found)
  }

  // ---------------------------------------------------------------------
  // Errors

  datatype AppError = NotFound | DatabaseError | BadRequest(message: string) | InternalError(message: string)
                    | NotImplemented

  /** The HTTP status each error becomes. */
  function ErrorStatusCode(e: AppError): (code: nat)
    ensures code in {400, 404, 500, 501}
    ensures code == 500 <==> e.DatabaseError? || e.InternalError?
    ensures code == 400 <==> e.BadRequest?
  {
    match e
    case NotFound => 404
    case DatabaseError => 500
    case BadRequest(_) => 400
    case InternalError(_) => 500
    case NotImplemented => 501
  }

  /** `AppError::into_response`: the status with an error envelope; a request or internal
      error carries its own message, the others a fixed text. */
  function ErrorResponse(e: AppError): (r: (nat, ApiResponse<()>))
    ensures r.0 == ErrorStatusCode(e)
    ensures !r.1.success && r.1.data.None? && r.1.status.None? && r.1.error.Some?
    ensures e.BadRequest? || e.InternalError? ==> r.1.error == Some(e.message)
  {
    var message := match e
      case NotFound => "Resource not found"
      case DatabaseError => "Database error"
      case BadRequest(m) => m
      case InternalError(m) => m
      case NotImplemented => "Not implemented yet";
    (ErrorStatusCode(e), ApiResponse.Error(message))
  }
}
