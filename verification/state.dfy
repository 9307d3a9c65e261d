/** The shared server state (src/server/state.rs): the file-existence cache
    with its expiry rule, the state's construction checks, and the two path
    helpers. Clock readings are parameters (`now`, in nanoseconds of a
    monotonic clock); the filesystem is a set of existing paths and the
    database open an outcome flag. */
module State {
  import opened Wrappers
  import opened Strings
  import opened Models

  /** One second, in nanoseconds. */
  const Second: nat := 1_000_000_000

  /** The fixed validity period of the file-existence cache: one minute. */
  const CacheDuration: nat := 60 * Second

  /** Which projects and targets have files on disk, and when that was last refreshed. */
  class FileCheckCache {
    var projectsWithFiles: map<i32, bool>
    var targetsWithFiles: map<i32, bool>
    var lastUpdated: int
    var cacheDuration: nat

    /** `FileCheckCache::new`: both maps empty, stamped now, valid for one minute. */
    constructor (now: int)
      ensures projectsWithFiles == map[] && targetsWithFiles == map[]
      ensures lastUpdated == now && cacheDuration == CacheDuration
    {
      projectsWithFiles := map[];
      targetsWithFiles := map[];
      lastUpdated := now;
      cacheDuration := CacheDuration;
    }

    /** `Instant::elapsed`: the time since the last refresh, never negative. */
    function Elapsed(now: int): (e: nat)
      reads this
      ensures now >= lastUpdated ==> e == now - lastUpdated
      ensures now <= lastUpdated ==> e == 0
    {
      if now >= lastUpdated then now - lastUpdated else 0
    }

    /** `is_expired`: strictly more than the validity period has elapsed. */
    predicate IsExpired(now: int)
      reads this
    {
      Elapsed(now) > cacheDuration
    }

    /** `clear`: both maps emptied and the stamp reset; the validity period is kept. */
    method Clear(now: int)
      modifies this
      ensures projectsWithFiles == map[] && targetsWithFiles == map[]
      ensures lastUpdated == now && cacheDuration == old(cacheDuration)
      ensures !IsExpired(now)
    {
      projectsWithFiles := map[];
      targetsWithFiles := map[];
      lastUpdated := now;
    }

    /** The cache is fresh for exactly its validity period after a refresh, and
        expired from then on. */
    lemma ExpiresAfterDuration(d: nat)
      ensures IsExpired(lastUpdated + d) <==> d > cacheDuration
    {
    }

    /** Once expired, the cache stays expired as time goes on. */
    lemma ExpiryIsMonotone(now: int, later: int)
      requires now <= later && IsExpired(now)
      ensures IsExpired(later)
    {
    }
  }

  /** The paths the state serves from. The path forms of the two directories are the
      directory strings themselves. */
  datatype AppState = AppState(databasePath: string, imageDir: string, cacheDir: string)

  /** `AppState::new`: the database file must exist, then the image directory, then the
      database must open; the first failure decides the error. A failed open passes on
      the database library's own error; its text here is a placeholder. */
  function NewAppState(dbPath: string, imageDir: string, cacheDir: string,
                       existing: set<string>, openSucceeds: bool): (r: Result<AppState, string>)
    ensures r.Ok? <==> dbPath in existing && imageDir in existing && openSucceeds
    ensures r.Ok? ==> r.value == AppState(dbPath, imageDir, cacheDir)
    ensures dbPath !in existing ==> r == Err("Database file not found: " + dbPath)
    ensures dbPath in existing && imageDir !in existing ==> r == Err("Image directory not found: " + imageDir)
  {
    if dbPath !in existing then Err("Database file not found: " + dbPath)
    else if imageDir !in existing then Err("Image directory not found: " + imageDir)
    else if !openSucceeds then Err("Database could not be opened: " + dbPath)
    else Ok(AppState(dbPath, imageDir, cacheDir))
  }

  /** `get_cache_path`: `cache_dir/category/filename`. For a relative category and a
      plain file name, the path lies under the cache directory and is named `filename`. */
  function GetCachePath(state: AppState, category: string, filename: string): (p: string)
    ensures EndsWith(p, filename)
  {
    JoinPath(JoinPath(state.cacheDir, category), filename)
  }

  lemma CachePathShape(state: AppState, category: string, filename: string)
    requires !StartsWith(category, "/")
    requires filename != [] && '/' !in filename
    ensures StartsWith(GetCachePath(state, category, filename), state.cacheDir)
    ensures BaseName(GetCachePath(state, category, filename)) == filename
  {
    var d := JoinPath(state.cacheDir, category);
    JoinPathExtends(state.cacheDir, category);
    assert filename[0] in filename && filename[..1] == [filename[0]];
    JoinPathExtends(d, filename);
    BaseNameOfJoin(d, filename);
  }

  /** `get_image_path`: `image_dir/relative`. A relative path stays under the image
      directory; an absolute one replaces it, as path joining does. */
  function GetImagePath(state: AppState, relative: string): (p: string)
    ensures StartsWith(relative, "/") ==> p == relative
    ensures EndsWith(p, relative)
  {
    JoinPath(state.imageDir, relative)
  }

  lemma ImagePathUnderImageDir(state: AppState, relative: string)
    requires !StartsWith(relative, "/")
    ensures StartsWith(GetImagePath(state, relative), state.imageDir)
  {
    JoinPathExtends(state.imageDir, relative);
  }
}
