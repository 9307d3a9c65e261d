/** The server configuration (src/config.rs): the built-in defaults, the merge
    of command-line overrides into a loaded configuration, the getters that
    fill in defaults, and the ordered validation. The filesystem is a pair of
    path sets and the human-readable duration parser (humantime) a function
    parameter; durations are in nanoseconds. */
module Config {
  import opened Wrappers

  newtype u16 = x: int | 0 <= x < 0x1_0000

  /** One second, in nanoseconds. */
  const Second: nat := 1_000_000_000

  /** The duration the getters fall back to when a TTL does not parse. */
  const FiveMinutes: nat := 300 * Second

  datatype ServerConfig = ServerConfig(port: Option<u16>, host: Option<string>, cors: Option<bool>)
  datatype DatabaseConfig = DatabaseConfig(path: string)
  datatype ImagesConfig = ImagesConfig(directories: seq<string>)
  datatype CacheConfig = CacheConfig(directory: Option<string>, fileTtl: Option<string>, directoryTtl: Option<string>)
  datatype PregenerationConfig = PregenerationConfig(enabled: Option<bool>, screen: Option<bool>,
                                                     large: Option<bool>, workers: Option<nat>)

  /** The two filesystem facts validation asks about a path. */
  datatype FileSystem = FileSystem(existing: set<string>, directories: set<string>)

  /** Why a configuration is rejected, in the order the checks run. */
  datatype ConfigError =
    | DatabaseMissing(path: string)
    | NoImageDirectories
    | ImageDirectoryMissing(dir: string)
    | NotADirectory(dir: string)
    | PortTooLow(port: u16)
    | ZeroTtl
    | InvalidFileTtl(text: string)
    | InvalidDirectoryTtl(text: string)

  /** `ServerConfig::default`. */
  function DefaultServerConfig(): ServerConfig {
    ServerConfig(Some(3000), Some("0.0.0.0"), Some(true))
  }

  /** `CacheConfig::default`. */
  function DefaultCacheConfig(): CacheConfig {
    CacheConfig(Some("./cache"), Some("5m"), Some("5m"))
  }

  /** The first directory of `dirs` that is missing or not a directory, reported as the
      loop in `validate` reports it; None when every one is a directory. */
  function DirectoryProblem(dirs: seq<string>, fs: FileSystem): (r: Option<ConfigError>)
    ensures r.None? <==> forall d :: d in dirs ==> d in fs.existing && d in fs.directories
    ensures r.Some? ==> exists i :: 0 <= i < |dirs| && FirstBad(dirs, fs, i) && r.value == DirectoryError(dirs[i], fs)
  {
    if dirs == [] then None
    else if dirs[0] !in fs.existing || dirs[0] !in fs.directories then
      assert FirstBad(dirs, fs, 0);
      Some(DirectoryError(dirs[0], fs))
    else
      var rest := DirectoryProblem(dirs[1..], fs);
      assert forall d :: d in dirs ==> d == dirs[0] || d in dirs[1..];
      if rest.Some? then
        var i :| 0 <= i < |dirs[1..]| && FirstBad(dirs[1..], fs, i) && rest.value == DirectoryError(dirs[1..][i], fs);
        assert FirstBad(dirs, fs, i + 1);
        rest
      else
        None
  }

  /** Position `i` holds the first directory that fails a check. */
  predicate FirstBad(dirs: seq<string>, fs: FileSystem, i: nat)
    requires i < |dirs|
  {
    (dirs[i] !in fs.existing || dirs[i] !in fs.directories)
    && forall j :: 0 <= j < i ==> dirs[j] in fs.existing && dirs[j] in fs.directories
  }

  /** A missing path is reported as missing before it could be reported as not a
      directory. */
  function DirectoryError(dir: string, fs: FileSystem): ConfigError {
    if dir !in fs.existing then ImageDirectoryMissing(dir) else NotADirectory(dir)
  }

  /** The configuration of the server, as loaded from its TOML file and then overridden
      from the command line. */
  class Config {
    var server: ServerConfig
    var database: DatabaseConfig
    var images: ImagesConfig
    var cache: CacheConfig
    var pregeneration: Option<PregenerationConfig>

    /** `Config::default`: port 3000 on every interface with CORS, the scheduler database
        and image directory in the working directory, a local cache with five-minute
        TTLs, and no pregeneration. */
    constructor ()
      ensures server == ServerConfig(Some(3000), Some("0.0.0.0"), Some(true))
      ensures database == DatabaseConfig("schedulerdb.sqlite")
      ensures images == ImagesConfig(["./images"])
      ensures cache == CacheConfig(Some("./cache"), Some("5m"), Some("5m"))
      ensures pregeneration.None?
    {
      server := DefaultServerConfig();
      database := DatabaseConfig("schedulerdb.sqlite");
      images := ImagesConfig(["./images"]);
      cache := DefaultCacheConfig();
      pregeneration := None;
    }

    function GetPort(): u16
      reads this
    {
      server.port.UnwrapOr(3000)
    }

    function GetHost(): string
      reads this
    {
      server.host.UnwrapOr("0.0.0.0")
    }

    function GetCorsEnabled(): bool
      reads this
    {
      server.cors.UnwrapOr(true)
    }

    function GetCacheDirectory(): string
      reads this
    {
      cache.directory.UnwrapOr("./cache")
    }

    /** The file TTL: the configured text, "5m" when absent, read by `parse`; five
        minutes when that fails. */
    function GetFileTtl(parse: string -> Option<nat>): nat
      reads this
    {
      parse(cache.fileTtl.UnwrapOr("5m")).UnwrapOr(FiveMinutes)
    }

    function GetDirectoryTtl(parse: string -> Option<nat>): nat
      reads this
    {
      parse(cache.directoryTtl.UnwrapOr("5m")).UnwrapOr(FiveMinutes)
    }

    function GetPregeneration(): Option<PregenerationConfig>
      reads this
    {
      pregeneration
    }

    /** `merge_with_cli`: each argument given on the command line replaces its setting;
        an empty directory list is ignored; nothing else changes. */
    method MergeWithCli(databasePath: Option<string>, imageDirs: Option<seq<string>>,
                        port: Option<u16>, cacheDir: Option<string>)
      modifies this
      ensures database.path == (if databasePath.Some? then databasePath.value else old(database.path))
      ensures images.directories ==
        (if imageDirs.Some? && imageDirs.value != [] then imageDirs.value else old(images.directories))
      ensures server == old(server).(port := if port.Some? then port else old(server.port))
      ensures cache == old(cache).(directory := if cacheDir.Some? then cacheDir else old(cache.directory))
      ensures pregeneration == old(pregeneration)
      ensures port.Some? ==> GetPort() == port.value
      ensures cacheDir.Some? ==> GetCacheDirectory() == cacheDir.value
      ensures GetHost() == old(GetHost()) && GetCorsEnabled() == old(GetCorsEnabled())
      ensures forall parse: string -> Option<nat> ::
        GetFileTtl(parse) == old(GetFileTtl(parse)) && GetDirectoryTtl(parse) == old(GetDirectoryTtl(parse))
    {
      if databasePath.Some? {
        database := database.(path := databasePath.value);
      }
      if imageDirs.Some? {
        if imageDirs.value != [] {
          images := images.(directories := imageDirs.value);
        }
      }
      if port.Some? {
        server := server.(port := port);
      }
      if cacheDir.Some? {
        cache := cache.(directory := cacheDir);
      }
    }

    /** Every check `validate` makes, as one condition. */
    predicate Valid(fs: FileSystem, parse: string -> Option<nat>)
      reads this
    {
      && database.path in fs.existing
      && images.directories != []
      && (forall d :: d in images.directories ==> d in fs.existing && d in fs.directories)
      && GetPort() >= 1024
      && GetFileTtl(parse) != 0 && GetDirectoryTtl(parse) != 0
      && (cache.fileTtl.Some? ==> parse(cache.fileTtl.value).Some?)
      && (cache.directoryTtl.Some? ==> parse(cache.directoryTtl.value).Some?)
    }

    /** `validate`: the checks run in order and the first failing one decides the error:
        database file, non-empty directory list, each directory in turn, port, non-zero
        TTLs, then the TTL texts themselves. */
    function Validate(fs: FileSystem, parse: string -> Option<nat>): (r: Result<(), ConfigError>)
      reads this
      ensures r.Ok? <==> Valid(fs, parse)
      ensures database.path !in fs.existing ==> r == Err(DatabaseMissing(database.path))
      ensures database.path in fs.existing && images.directories == [] ==> r == Err(NoImageDirectories)
      ensures r.Err? && (r.error.ImageDirectoryMissing? || r.error.NotADirectory?) ==>
        database.path in fs.existing
        && exists i :: 0 <= i < |images.directories| && FirstBad(images.directories, fs, i)
                       && r.error == DirectoryError(images.directories[i], fs)
      ensures r.Err? && r.error.PortTooLow? ==>
        database.path in fs.existing && DirectoryProblem(images.directories, fs).None? && images.directories != []
        && r.error.port == GetPort() && GetPort() < 1024
      ensures r.Err? && (r.error.ZeroTtl? || r.error.InvalidFileTtl? || r.error.InvalidDirectoryTtl?) ==>
        database.path in fs.existing && images.directories != [] && DirectoryProblem(images.directories, fs).None?
        && GetPort() >= 1024
      ensures r.Err? && (r.error.InvalidFileTtl? || r.error.InvalidDirectoryTtl?) ==>
        GetFileTtl(parse) != 0 && GetDirectoryTtl(parse) != 0
    {
      if database.path !in fs.existing then Err(DatabaseMissing(database.path))
      else if images.directories == [] then Err(NoImageDirectories)
      else if DirectoryProblem(images.directories, fs).Some? then Err(DirectoryProblem(images.directories, fs).value)
      else if GetPort() < 1024 then Err(PortTooLow(GetPort()))
      else if GetFileTtl(parse) == 0 || GetDirectoryTtl(parse) == 0 then Err(ZeroTtl)
      else if cache.fileTtl.Some? && parse(cache.fileTtl.value).None? then Err(InvalidFileTtl(cache.fileTtl.value))
      else if cache.directoryTtl.Some? && parse(cache.directoryTtl.value).None? then
        Err(InvalidDirectoryTtl(cache.directoryTtl.value))
      else Ok(())
    }

    /** The getters on a configuration with nothing set fall back to the defaults. */
    lemma GettersOnEmpty(parse: string -> Option<nat>)
      requires server == ServerConfig(None, None, None)
      requires cache == CacheConfig(None, None, None)
      requires parse("5m") == Some(FiveMinutes)
      ensures GetPort() == 3000 && GetHost() == "0.0.0.0" && GetCorsEnabled()
      ensures GetCacheDirectory() == "./cache"
      ensures GetFileTtl(parse) == FiveMinutes && GetDirectoryTtl(parse) == FiveMinutes
    {
    }

    /** An unreadable file TTL passes the non-zero check, because its getter falls back to
        five minutes, and is then reported by the format check. */
    lemma UnparsableFileTtlReported(fs: FileSystem, parse: string -> Option<nat>)
      requires database.path in fs.existing && images.directories != []
      requires forall d :: d in images.directories ==> d in fs.existing && d in fs.directories
      requires GetPort() >= 1024
      requires cache.fileTtl.Some? && parse(cache.fileTtl.value).None?
      requires GetDirectoryTtl(parse) != 0
      ensures Validate(fs, parse) == Err(InvalidFileTtl(cache.fileTtl.value))
    {
    }
  }
}
