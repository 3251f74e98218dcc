/**
 Loading the configuration file: choosing the path, checking that the file
 exists, parsing it and validating the result. Where the program stops the
 process, the model returns a tagged result and leaves the exit status to
 the caller. The file system is a map from paths to documents: what
 `JSON.parse` makes of a file, after class-transformer's implicit
 conversion of its values.
 */
module ConfigLoader {
  import opened Wrappers
  import opened Validation
  import opened Configuration

  /** One file as the validator sees it. `Parsed(record)` holds the parsed
      document after class-transformer's implicit conversion of its values
      (a numeric string becomes a number; `JSON.parse` itself already
      turns `1e999` into +Infinity, which the conversion keeps);
      `Malformed` stands for contents that `JSON.parse` rejects or a file
      that cannot be read. */
  datatype Document = Parsed(record: Record) | Malformed

  datatype FileSystem = FileSystem(files: map<string, Document>)

  const ConfigFileName: string := "config.json"

  function EndsWithSlash(s: string): bool
  {
    |s| > 0 && s[|s| - 1] == '/'
  }

  /** `config.json` inside the program's own directory. */
  function DefaultConfigPath(programDir: string): (p: string)
    ensures |programDir| <= |p| && p[..|programDir|] == programDir
    ensures |p| >= 12 && p[|p| - 12..] == "/" + ConfigFileName
    ensures p[|programDir|..] == "/" + ConfigFileName
         || (EndsWithSlash(programDir) && p[|programDir|..] == ConfigFileName)
  {
    if EndsWithSlash(programDir) then programDir + ConfigFileName
    else programDir + "/" + ConfigFileName
  }

  /** The path argument wins whenever one is given, even an empty one; the
      default path is used only when there is none. */
  function EffectivePath(cpath: Option<string>, programDir: string): (p: string)
    ensures cpath.Some? ==> p == cpath.value
    ensures cpath.None? ==> |programDir| <= |p| && p[..|programDir|] == programDir
    ensures cpath.None? ==>
      p[|programDir|..] == "/" + ConfigFileName
      || (EndsWithSlash(programDir) && p[|programDir|..] == ConfigFileName)
  {
    match cpath
    case Some(given) => given
    case None => DefaultConfigPath(programDir)
  }

  /** The two errors the existence check can raise. */
  datatype ExistenceError = ConfigurationFileNotFound | FileNotFound(path: string)

  /** The existence check asks the file system twice; the second question
      gets the same answer as the first, so its error is never raised. */
  function CheckConfigFileExists(path: string, fs: FileSystem): (r: Option<ExistenceError>)
    ensures r.None? <==> path in fs.files
    ensures r.Some? ==> r.value == ConfigurationFileNotFound
  {
    var configExists := path in fs.files;
    if !configExists then Some(ConfigurationFileNotFound)
    else
      var stillExists := path in fs.files;
      if !stillExists then Some(FileNotFound(path)) else None
  }

  datatype LoadResult =
    | NotFound(error: ExistenceError)
    | ParseError
    | Invalid(violations: seq<Violation>)
    | Loaded(config: Config)

  /** `readConfigFile`: a configuration is returned only for an existing,
      well-formed file that passes validation, and it holds exactly the
      file's values; a missing file is reported before anything is read,
      and a file that fails validation is reported with all its violations. */
  function ReadConfigFile(cpath: Option<string>, programDir: string, fs: FileSystem, isUrl: string -> bool): (r: LoadResult)
    ensures var p := EffectivePath(cpath, programDir);
      && (r.NotFound? <==> p !in fs.files)
      && (r.ParseError? <==> p in fs.files && fs.files[p].Malformed?)
      && (r.Invalid? <==> p in fs.files && fs.files[p].Parsed? && ValidateConfig(fs.files[p].record, isUrl) != [])
      && (r.Invalid? ==> r.violations == ValidateConfig(fs.files[p].record, isUrl))
      && (r.Loaded? ==> p in fs.files && fs.files[p].Parsed? && ToRecord(r.config) == fs.files[p].record)
    ensures r.Loaded? ==> Valid(r.config, isUrl)
  {
    LoadFile(EffectivePath(cpath, programDir), fs, isUrl)
  }

  /** The part of `readConfigFile` after the path is chosen. */
  function LoadFile(configPath: string, fs: FileSystem, isUrl: string -> bool): LoadResult
  {
    match CheckConfigFileExists(configPath, fs)
    case Some(error) => NotFound(error)
    case None =>
      match fs.files[configPath]
      case Malformed => ParseError
      case Parsed(rec) =>
        var violations := ValidateConfig(rec, isUrl);
        if |violations| > 0 then Invalid(violations)
        else Loaded(ToConfig(rec, isUrl))
  }

  /** A given path decides the outcome on its own, whatever the program's
      directory; without one, loading behaves as if the default path had
      been given. */
  lemma ExplicitPathPrecedence(path: string, programDir: string, otherDir: string, fs: FileSystem, isUrl: string -> bool)
    ensures ReadConfigFile(Some(path), programDir, fs, isUrl) == ReadConfigFile(Some(path), otherDir, fs, isUrl)
    ensures ReadConfigFile(None, programDir, fs, isUrl) == ReadConfigFile(Some(DefaultConfigPath(programDir)), otherDir, fs, isUrl)
  {
  }
}
