/**
 * The karma-vs-reporter package a Karma project may install, and the cached
 * version read from its package.json (KarmaTestAdapter/Commands/KarmaVsReporter.cs).
 *
 * The file system, the JSON reader and the semantic-version parser are not
 * modelled: every call is given a `Host` that answers for them.
 */
module Commands {
  import opened Wrappers
  import opened Text

  /** A parsed semantic version; only its identity matters to the cache. */
  datatype SemVer = SemVer(major: nat, minor: nat, patch: nat, prerelease: string, build: string)

  /** What reading package.json and looking up its "version" property can find. */
  datatype ConfigJson =
    | Unreadable                   // File.ReadAllText fails
    | Malformed                    // JObject.Parse fails
    | NoVersionField               // TryGetValue("version") is false
    | NonStringVersion             // the property's token type is not String
    | StringVersion(text: string)  // the property's string value

  /** The exceptions that escape the modelled members. */
  datatype Exception =
    | ArgumentNull(paramName: string)  // ArgumentNullException
    | InvalidPathChars                 // ArgumentException from Path.Combine
    | IOError                          // from File.ReadAllText
    | JsonReader                       // JsonReaderException from JObject.Parse
    | VersionFormat                    // the SemanticVersion constructor rejects the string

  /**
   * What the machine answers when asked: which files exist, when a file was last
   * written (a number standing for a DateTime), what a config file holds, and
   * which strings the SemanticVersion constructor accepts.
   */
  datatype Host = Host(
    files: set<string>,
    lastWriteTime: string -> int,
    readConfig: string -> ConfigJson,
    parseVersion: string -> Option<SemVer>)

  /** The mutable part of a reporter: the last observed write time and the cached version. */
  datatype Cache = Cache(timestamp: Option<int>, version: Option<SemVer>) {
    /** A cached version always comes with the write time it was read at. */
    predicate Consistent()
    {
      version.Some? ==> timestamp.Some?
    }
  }

  const DirectorySeparator: char := '\\'

  /** The characters Path.Combine (.NET Framework) refuses: '"', '<', '>', '|' and the control characters. */
  predicate HasIllegalPathChars(path: string)
  {
    exists i :: 0 <= i < |path| && (path[i] in "\"<>|" || path[i] < ' ')
  }

  predicate IsDirectorySeparator(c: char)
  {
    c == '\\' || c == '/' || c == ':'
  }

  /** Path.IsPathRooted on Windows: a leading separator, or ':' as the second character. */
  predicate IsPathRooted(path: string)
  {
    (|path| >= 1 && (path[0] == '\\' || path[0] == '/')) || (|path| >= 2 && path[1] == ':')
  }

  /** Joins two path parts as Path.Combine does once its arguments are checked. */
  function CombinePaths(path1: string, path2: string): (path: string)
    ensures path2 != [] ==> |path| >= |path2| && path[|path| - 1] == path2[|path2| - 1]
    ensures path1 != [] && path2 != [] && !IsPathRooted(path2) ==>
      |path| == |path1| + |path2| + (if IsDirectorySeparator(path1[|path1| - 1]) then 0 else 1)
  {
    if path2 == [] then path1
    else if path1 == [] then path2
    else if IsPathRooted(path2) then path2
    else if IsDirectorySeparator(path1[|path1| - 1]) then path1 + path2
    else path1 + [DirectorySeparator] + path2
  }

  /** Directory\node_modules\karma-vs-reporter, where both files live. */
  function PackageDirectory(directory: string): (path: string)
  {
    CombinePaths(CombinePaths(directory, "node_modules"), "karma-vs-reporter")
  }

  /** Directory\node_modules\karma-vs-reporter\name: a file of the package. */
  function PackageFile(directory: string, name: string): (path: string)
    requires name != [] && !IsPathRooted(name)
    ensures directory != [] ==> path == PackageDirectory(directory) + [DirectorySeparator] + name
  {
    if directory != [] then FileInPackage(directory, name); CombinePaths(PackageDirectory(directory), name)
    else CombinePaths(PackageDirectory(directory), name)
  }

  /** Directory\node_modules\karma-vs-reporter\karma-vs-reporter, the reporter script. */
  function ReporterPath(directory: string): (path: string)
    ensures directory != [] ==> path == PackageDirectory(directory) + [DirectorySeparator] + "karma-vs-reporter"
  {
    PackageFile(directory, "karma-vs-reporter")
  }

  /** Directory\node_modules\karma-vs-reporter\package.json, the package's config file. */
  function ConfigFilePath(directory: string): (path: string)
    ensures directory != [] ==> path == PackageDirectory(directory) + [DirectorySeparator] + "package.json"
  {
    PackageFile(directory, "package.json")
  }

  lemma PackageDirectoryUnder(directory: string)
    requires directory != []
    ensures PackageDirectory(directory)
         == directory + (if IsDirectorySeparator(directory[|directory| - 1]) then "" else "\\")
            + "node_modules\\karma-vs-reporter"
  {
    var modules := CombinePaths(directory, "node_modules");
    ModulesDirectory(directory);
    JoinWithSeparator(modules, "karma-vs-reporter");
    var tail := "node_modules" + [DirectorySeparator] + "karma-vs-reporter";
    assert tail == "node_modules\\karma-vs-reporter";
    if IsDirectorySeparator(directory[|directory| - 1]) {
      assert modules + [DirectorySeparator] + "karma-vs-reporter" == directory + tail;
    } else {
      assert modules + [DirectorySeparator] + "karma-vs-reporter" == directory + [DirectorySeparator] + tail;
    }
  }

  lemma ModulesDirectory(directory: string)
    requires directory != []
    ensures var modules := CombinePaths(directory, "node_modules");
      modules == directory + (if IsDirectorySeparator(directory[|directory| - 1]) then "" else "\\") + "node_modules"
      && modules[|modules| - 1] == 's'
  {
  }

  /**
   * Both paths lie in the package directory under `directory`: the reporter script
   * is `karma-vs-reporter` and the config file `package.json` there.
   */
  lemma PathLayout(directory: string)
    requires directory != []
    ensures PackageDirectory(directory)
         == directory + (if IsDirectorySeparator(directory[|directory| - 1]) then "" else "\\")
            + "node_modules\\karma-vs-reporter"
    ensures var package := PackageDirectory(directory);
      |package| >= |directory|
      && package[..|directory|] == directory
      && ReporterPath(directory) == package + [DirectorySeparator] + "karma-vs-reporter"
      && ConfigFilePath(directory) == package + [DirectorySeparator] + "package.json"
      && ReporterPath(directory) != ConfigFilePath(directory)
  {
    PackageDirectoryUnder(directory);
    var package := PackageDirectory(directory);
    var rest := (if IsDirectorySeparator(directory[|directory| - 1]) then "" else "\\")
                + "node_modules\\karma-vs-reporter";
    assert package == directory + rest;
    assert package[..|directory|] == directory;
    var reporter := ReporterPath(directory);
    var config := ConfigFilePath(directory);
    assert reporter[|reporter| - 1] == 'r' && config[|config| - 1] == 'n';
  }

  /** A relative file name joins the package directory after a separator. */
  lemma FileInPackage(directory: string, name: string)
    requires directory != [] && name != [] && !IsPathRooted(name)
    ensures CombinePaths(PackageDirectory(directory), name) == PackageDirectory(directory) + [DirectorySeparator] + name
  {
    var package := PackageDirectory(directory);
    assert package[|package| - 1] == 'r' by {
      PackageDirectoryUnder(directory);
    }
    JoinWithSeparator(package, name);
  }

  /** Path.Combine puts a separator between a directory not ending in one and a relative name. */
  lemma JoinWithSeparator(path1: string, path2: string)
    requires path1 != [] && !IsDirectorySeparator(path1[|path1| - 1])
    requires path2 != [] && !IsPathRooted(path2)
    ensures CombinePaths(path1, path2) == path1 + [DirectorySeparator] + path2
  {
  }

  class KarmaVsReporter {
    const Directory: string
    const Reporter: string
    const ConfigFile: string
    var Timestamp: Option<int>
    var cachedVersion: Option<SemVer>

    function State(): Cache
      reads this
    {
      Cache(Timestamp, cachedVersion)
    }

    /** The constructor once its argument has passed the checks; `New` performs them. */
    constructor (directory: string, host: Host)
      requires !IsNullOrWhiteSpace(Some(directory)) && !HasIllegalPathChars(directory)
      ensures Directory == directory
      ensures Reporter == ReporterPath(directory) && ConfigFile == ConfigFilePath(directory)
      ensures Timestamp == (if Exists(host) then Some(host.lastWriteTime(ConfigFile)) else None)
      ensures cachedVersion == None && State().Consistent()
    {
      Directory := directory;
      Reporter := ReporterPath(directory);
      ConfigFile := ConfigFilePath(directory);
      new;
      Timestamp := if Exists(host) then Some(host.lastWriteTime(ConfigFile)) else None;
      cachedVersion := None;
    }

    /**
     * `new KarmaVsReporter(directory)`: refuses a null or blank directory and one
     * Path.Combine refuses; otherwise a reporter for that directory whose timestamp
     * is the config file's write time when both files exist and whose cache is empty.
     */
    static method New(directory: Option<string>, host: Host) returns (r: Result<KarmaVsReporter, Exception>)
      ensures IsNullOrWhiteSpace(directory) ==> r == Failure(ArgumentNull("directory"))
      ensures !IsNullOrWhiteSpace(directory) && HasIllegalPathChars(directory.value) ==> r == Failure(InvalidPathChars)
      ensures r.Success? <==> !IsNullOrWhiteSpace(directory) && !HasIllegalPathChars(directory.value)
      ensures r.Success? ==>
        var reporter := r.value;
        fresh(reporter)
        && reporter.Directory == directory.value
        && reporter.Reporter == ReporterPath(directory.value)
        && reporter.ConfigFile == ConfigFilePath(directory.value)
        && (reporter.Timestamp.Some? <==> reporter.Exists(host))
        && (reporter.Timestamp.Some? ==> reporter.Timestamp.value == host.lastWriteTime(reporter.ConfigFile))
        && reporter.cachedVersion == None
    {
      if IsNullOrWhiteSpace(directory) {
        return Failure(ArgumentNull("directory"));
      }
      if HasIllegalPathChars(directory.value) {
        return Failure(InvalidPathChars);
      }
      var reporter := new KarmaVsReporter(directory.value, host);
      return Success(reporter);
    }

    /** Both the reporter script and its package.json are on disk. */
    function Exists(host: Host): (r: bool)
      ensures r <==> {Reporter, ConfigFile} <= host.files
    {
      Reporter in host.files && ConfigFile in host.files
    }

    /** The config file's write time, or null when the package is not installed. */
    function GetTimestamp(host: Host): (r: Option<int>)
      ensures r.Some? <==> Exists(host)
      ensures r.Some? ==> r.value == host.lastWriteTime(ConfigFile)
    {
      if Exists(host) then Some(host.lastWriteTime(ConfigFile)) else None
    }

    /**
     * Reads package.json and turns its "version" property into a version: nothing
     * when the property is missing or not a string, an exception when the file
     * cannot be read or parsed or the string is not a semantic version.
     */
    function ReadVersion(host: Host): (r: Result<Option<SemVer>, Exception>)
      ensures r.Failure? <==>
        host.readConfig(ConfigFile).Unreadable? || host.readConfig(ConfigFile).Malformed?
        || (host.readConfig(ConfigFile).StringVersion? && host.parseVersion(host.readConfig(ConfigFile).text).None?)
      ensures r == Success(None) <==>
        host.readConfig(ConfigFile).NoVersionField? || host.readConfig(ConfigFile).NonStringVersion?
      ensures r.Success? && r.value.Some? ==>
        host.readConfig(ConfigFile).StringVersion?
        && host.parseVersion(host.readConfig(ConfigFile).text) == r.value
    {
      match host.readConfig(ConfigFile)
      case Unreadable => Failure(IOError)
      case Malformed => Failure(JsonReader)
      case NoVersionField => Success(None)
      case NonStringVersion => Success(None)
      case StringVersion(text) =>
        match host.parseVersion(text)
        case None => Failure(VersionFormat)
        case Some(v) => Success(Some(v))
    }

    /** One read of the `Version` property from cache state `c`: what it yields and the state after. */
    function VersionStep(c: Cache, host: Host): (step: (Result<Option<SemVer>, Exception>, Cache))
    {
      if !Exists(host) then (Success(None), Cache(c.timestamp, None))
      else
        var newTimestamp := GetTimestamp(host);
        if c.version.None? || newTimestamp != c.timestamp then
          match ReadVersion(host)
          case Failure(e) => (Failure(e), Cache(newTimestamp, c.version))
          case Success(v) => (Success(v), Cache(newTimestamp, v))
        else (Success(c.version), c)
    }

    /** The `Version` property getter. */
    method Version(host: Host) returns (r: Result<Option<SemVer>, Exception>)
      modifies this
      ensures (r, State()) == VersionStep(old(State()), host)
      ensures State().Consistent()
    {
      if Exists(host) {
        var newTimestamp := GetTimestamp(host);
        if cachedVersion == None || newTimestamp != Timestamp {
          Timestamp := newTimestamp;
          var config := host.readConfig(ConfigFile);
          if config.Unreadable? {
            return Failure(IOError);
          }
          if config.Malformed? {
            return Failure(JsonReader);
          }
          if config.StringVersion? {
            var parsed := host.parseVersion(config.text);
            if parsed.None? {
              return Failure(VersionFormat);
            }
            cachedVersion := parsed;
          } else {
            cachedVersion := None;
          }
        }
      } else {
        cachedVersion := None;
      }
      return Success(cachedVersion);
    }

    /** One call of the private `GetVersion(previousVersion)`: what it yields and the timestamp after. */
    function GetVersionStep(timestamp: Option<int>, previousVersion: Option<SemVer>, host: Host)
      : (step: (Result<Option<SemVer>, Exception>, Option<int>))
    {
      if !Exists(host) then (Success(None), timestamp)
      else
        var newTimestamp := GetTimestamp(host);
        if previousVersion.None? || newTimestamp != timestamp then (ReadVersion(host), newTimestamp)
        else (Success(None), timestamp)
    }

    /** The private helper `GetVersion`, never called by the class itself; it changes only `Timestamp`. */
    method GetVersion(previousVersion: Option<SemVer>, host: Host) returns (r: Result<Option<SemVer>, Exception>)
      modifies this`Timestamp
      ensures (r, Timestamp) == GetVersionStep(old(Timestamp), previousVersion, host)
      ensures old(State()).Consistent() ==> State().Consistent()
    {
      if Exists(host) {
        var newTimestamp := GetTimestamp(host);
        if previousVersion == None || newTimestamp != Timestamp {
          Timestamp := newTimestamp;
          var config := host.readConfig(ConfigFile);
          if config.Unreadable? {
            return Failure(IOError);
          }
          if config.Malformed? {
            return Failure(JsonReader);
          }
          if config.StringVersion? {
            var parsed := host.parseVersion(config.text);
            if parsed.None? {
              return Failure(VersionFormat);
            }
            return Success(parsed);
          }
        }
      }
      return Success(None);
    }

    /** Without the package the getter yields null and empties the cache, but keeps the timestamp. */
    lemma AbsentClearsVersionOnly(c: Cache, host: Host)
      requires !Exists(host)
      ensures VersionStep(c, host) == (Success(None), Cache(c.timestamp, None))
    {
    }

    /** With a cached version and an unchanged write time the getter yields the cached version and changes nothing. */
    lemma CachedHit(c: Cache, host: Host)
      requires Exists(host) && c.version.Some? && GetTimestamp(host) == c.timestamp
      ensures VersionStep(c, host) == (Success(c.version), c)
    {
    }

    /** On a cache hit the content of package.json is not consulted. */
    lemma CachedHitReadsNothing(c: Cache, host: Host, other: Host)
      requires Exists(host) && c.version.Some? && GetTimestamp(host) == c.timestamp
      requires other.files == host.files && other.lastWriteTime(ConfigFile) == host.lastWriteTime(ConfigFile)
      ensures VersionStep(c, other) == VersionStep(c, host)
    {
    }

    /**
     * With an empty cache or a changed write time the getter records the new write time
     * and yields what package.json holds; the cache takes that value unless reading threw.
     */
    lemma Refreshes(c: Cache, host: Host)
      requires Exists(host) && (c.version.None? || GetTimestamp(host) != c.timestamp)
      ensures var (r, after) := VersionStep(c, host);
        r == ReadVersion(host)
        && after.timestamp == GetTimestamp(host)
        && after.version == (if r.Success? then r.value else c.version)
    {
    }

    /**
     * A missing or non-string version leaves the cache empty, so the next read goes
     * back to package.json even though its write time has not changed.
     */
    lemma NullVersionIsReadAgain(c: Cache, host: Host, later: Host)
      requires Exists(host) && VersionStep(c, host).0 == Success(None)
      requires later.files == host.files && later.lastWriteTime(ConfigFile) == host.lastWriteTime(ConfigFile)
      ensures VersionStep(c, host).1 == Cache(GetTimestamp(host), None)
      ensures VersionStep(VersionStep(c, host).1, later).0 == ReadVersion(later)
    {
    }

    /** Once a version has been read, reading again with nothing changed yields it again from the cache. */
    lemma RepeatedReadIsStable(c: Cache, host: Host)
      requires Exists(host)
      requires VersionStep(c, host).0.Success? && VersionStep(c, host).0.value.Some?
      ensures VersionStep(VersionStep(c, host).1, host) == VersionStep(c, host)
    {
    }

    /**
     * When package.json changes into something that cannot be read, the getter throws
     * but has already recorded the new write time; the next read then serves the old
     * cached version without looking at the file.
     */
    lemma StaleVersionAfterFailedRead(c: Cache, host: Host)
      requires Exists(host) && c.version.Some? && GetTimestamp(host) != c.timestamp
      requires ReadVersion(host).Failure?
      ensures VersionStep(c, host).0 == ReadVersion(host)
      ensures VersionStep(VersionStep(c, host).1, host) == (Success(c.version), Cache(GetTimestamp(host), c.version))
    {
    }

    /** Every read of the getter, and every call of `GetVersion`, keeps a cached version paired with a write time. */
    lemma StepsKeepConsistent(c: Cache, previousVersion: Option<SemVer>, host: Host)
      requires c.Consistent()
      ensures VersionStep(c, host).1.Consistent()
      ensures Cache(GetVersionStep(c.timestamp, previousVersion, host).1, c.version).Consistent()
    {
    }

    /** A package that appears after a read that found none is read on the next call. */
    lemma AppearingPackageIsRead(c: Cache, before: Host, after: Host)
      requires !Exists(before) && Exists(after)
      ensures VersionStep(VersionStep(c, before).1, after).0 == ReadVersion(after)
    {
    }

    /** `GetVersion` yields null when the package is absent, and also when the previous version is still current. */
    lemma GetVersionNullUnlessReread(timestamp: Option<int>, previousVersion: Option<SemVer>, host: Host)
      requires !Exists(host) || (previousVersion.Some? && GetTimestamp(host) == timestamp)
      ensures GetVersionStep(timestamp, previousVersion, host) == (Success(None), timestamp)
    {
    }

    /** `GetVersion` re-reads, and records the new write time, exactly when the getter would. */
    lemma GetVersionRereadsLikeGetter(c: Cache, host: Host)
      requires Exists(host)
      ensures var (r, timestamp) := GetVersionStep(c.timestamp, c.version, host);
        timestamp == VersionStep(c, host).1.timestamp
        && ((c.version.None? || GetTimestamp(host) != c.timestamp) ==> r == VersionStep(c, host).0)
    {
    }

    /** Where the getter returns its cached version, `GetVersion` given that version returns null. */
    lemma GetVersionDiffersOnHit(c: Cache, host: Host)
      requires Exists(host) && c.version.Some? && GetTimestamp(host) == c.timestamp
      ensures VersionStep(c, host).0 == Success(c.version)
      ensures GetVersionStep(c.timestamp, c.version, host).0 == Success(None)
    {
    }
  }
}
