/**
 * The configuration service: it applies the defaults to the caller's
 * options, optionally loads a `.env` file into the environment, loads and
 * merges the configuration files, merges the environment tree over them,
 * converts the result into the configuration class, validates it, and only
 * then stores it.
 *
 * The libraries and the process the service calls into are parameters
 * (`Io`): the file system is a map from readable paths to their contents,
 * parsers and the validator are functions, and `process.env` is a field of
 * the service that `dotenv` replaces.
 */
module ConfigurationService {
  import opened Wrappers
  import opened Text
  import opened PlainData
  import opened ConfigOptions
  import opened DefaultOptions
  import opened FileResolution
  import Merge
  import DefaultEnvParser

  /** The code the service calls but that is not part of it. */
  datatype Io = Io(
    // `readFileSync`: the files that can be read, with their contents
    contents: map<string, string>,
    // `new parser().parse(content)`; `None` when it throws
    parse: (ParserClass, string) -> Option<Value>,
    // `process.env` after `dotenv.config(dotEnvConfig)`
    dotenv: (map<string, Value>, Env) -> Env,
    // `new envParser().parse(process.env)` for a caller's env parser; `None` when it throws
    customEnvParse: (string, Env) -> Option<Value>,
    // `plainToClass(configClass, plain, classTransformerOptions)`
    toClass: (Option<ConfigClass>, Value, map<string, Value>) -> Value,
    // `validateSync(instance, classValidatorOptions)`, one text per error
    validate: (Value, map<string, Value>) -> seq<string>)

  /** Why construction of the service fails. */
  datatype InitError =
    | EnvParserThrew(cause: DefaultEnvParser.EnvError)
    | CustomEnvParserThrew
    | ValidationFailed(message: string)

  const ValidationMessage: string :=
    "Confguration validation failed. Please check the logs above for more information."

  function LoadFailureLine(path: string): string {
    "Unable to load file at path " + path + "."
  }

  /** The lines logged when validation reports errors (the object dump itself is not modelled). */
  function ValidationLog(errors: seq<string>): seq<string> {
    ["Configuration validation failed on object:", "Configuration validation error: " + Join(errors, ",")]
  }

  // ---------------------------------------------------------------------
  // The pipeline as functions

  /** `loadAndParseFile`: the parsed tree and the lines logged. */
  function LoadedFile(io: Io, path: string, parser: ParserClass): (r: (Value, seq<string>))
    ensures r.1 == [] || (r.0 == Obj(map[]) && r.1 == [LoadFailureLine(path)])
    ensures r.1 == [] <==> path in io.contents && io.parse(parser, io.contents[path]).Some?
    ensures r.1 == [] ==> r.0 == io.parse(parser, io.contents[path]).value
  {
    if path in io.contents && io.parse(parser, io.contents[path]).Some? then
      (io.parse(parser, io.contents[path]).value, [])
    else
      (Obj(map[]), [LoadFailureLine(path)])
  }

  /** `loadConfigurationFiles` over the resolved `paths`: the merged tree and the lines logged. */
  function LoadFiles(io: Io, o: ModuleOptions, paths: seq<string>): (map<string, Value>, seq<string>)
    requires Complete(o)
    decreases |paths|
  {
    if |paths| == 0 then (map[], [])
    else
      var before := LoadFiles(io, o, paths[..|paths| - 1]);
      var path := paths[|paths| - 1];
      var file := LoadedFile(io, path, ParserForPath(o.parsers.value, o.defaultParser.value, path));
      (Merge.MergeTop(before.0, file.0), before.1 + file.1)
  }

  /** One more path: its tree is merged over the others and its log lines follow theirs. */
  lemma LoadFilesSnoc(io: Io, o: ModuleOptions, paths: seq<string>, i: nat)
    requires Complete(o) && i < |paths|
    ensures var before := LoadFiles(io, o, paths[..i]);
      var file := LoadedFile(io, paths[i], ParserForPath(o.parsers.value, o.defaultParser.value, paths[i]));
      LoadFiles(io, o, paths[..i + 1]) == (Merge.MergeTop(before.0, file.0), before.1 + file.1)
  {
    assert paths[..i + 1][..i] == paths[..i];
  }

  /** `process.env` once `initialize` has run its first step. */
  function EnvAfterDotenv(o: ModuleOptions, io: Io, env: Env): Env
    requires Complete(o)
  {
    if o.useDotenv.value then io.dotenv(o.dotEnvConfig.value, env) else env
  }

  /** `loadEnvConfiguration`. */
  function EnvTree(o: ModuleOptions, io: Io, env: Env): Result<Value, InitError>
    requires Complete(o)
  {
    match o.envParser.value
    case DefaultEnvParser =>
      (match DefaultEnvParser.BuildTree(env)
       case Success(t) => Success(t)
       case Failure(e) => Failure(EnvParserThrew(e)))
    case CustomEnvParser(name) =>
      (match io.customEnvParse(name, env)
       case Some(t) => Success(t)
       case None => Failure(CustomEnvParserThrew))
  }

  /** The plain configuration: the file tree with the environment tree merged over it. */
  function Merged(o: ModuleOptions, io: Io, env: Env): Result<map<string, Value>, InitError>
    requires Complete(o)
  {
    var files := LoadFiles(io, o, FilesToLoad(o.files.value, env)).0;
    var envTree :- EnvTree(o, io, env);
    Success(Merge.MergeTop(files, envTree))
  }

  /** What `initialize` leaves behind. */
  datatype Outcome = Outcome(env: Env, log: seq<string>, config: Result<Value, InitError>)

  /** `initialize`, started with `process.env` equal to `env0`. */
  function Run(o: ModuleOptions, io: Io, env0: Env): Outcome
    requires Complete(o)
  {
    var env := EnvAfterDotenv(o, io, env0);
    var log := LoadFiles(io, o, FilesToLoad(o.files.value, env)).1;
    match Merged(o, io, env)
    case Failure(e) => Outcome(env, log, Failure(e))
    case Success(plain) =>
      var instance := io.toClass(o.configClass, Obj(plain), o.classTransformerOptions.value);
      var errors := io.validate(instance, o.classValidatorOptions.value);
      if |errors| > 0 then Outcome(env, log + ValidationLog(errors), Failure(ValidationFailed(ValidationMessage)))
      else Outcome(env, log, Success(instance))
  }

  // ---------------------------------------------------------------------
  // Properties of the pipeline

  /** A file that cannot be read or parsed adds nothing to the tree, only a log line. */
  lemma FailedFileContributesNothing(io: Io, o: ModuleOptions, paths: seq<string>, p: string)
    requires Complete(o)
    requires p !in io.contents || io.parse(ParserForPath(o.parsers.value, o.defaultParser.value, p), io.contents[p]).None?
    ensures LoadFiles(io, o, paths + [p]).0 == LoadFiles(io, o, paths).0
    ensures LoadFiles(io, o, paths + [p]).1 == LoadFiles(io, o, paths).1 + [LoadFailureLine(p)]
  {
    assert (paths + [p])[..|paths|] == paths;
    var acc := LoadFiles(io, o, paths).0;
    var r := Merge.MergeTop(acc, Obj(map[]));
    assert r.Keys == acc.Keys;
    assert r == acc;
  }

  /** A later file's scalar wins over anything the earlier files put at the same path. */
  lemma LaterFileWins(io: Io, o: ModuleOptions, paths: seq<string>, p: string, path: seq<Step>, x: Value)
    requires Complete(o)
    requires var file := LoadedFile(io, p, ParserForPath(o.parsers.value, o.defaultParser.value, p)).0;
      file.Obj? && At(file, path) == Some(x) && IsScalar(x)
    ensures At(Obj(LoadFiles(io, o, paths + [p]).0), path) == Some(x)
  {
    assert (paths + [p])[..|paths|] == paths;
    var file := LoadedFile(io, p, ParserForPath(o.parsers.value, o.defaultParser.value, p)).0;
    Merge.ScalarWins(Some(Obj(LoadFiles(io, o, paths).0)), file, path, x);
  }

  /** The environment's scalars win over the files' values at the same path. */
  lemma EnvWinsOverFiles(o: ModuleOptions, io: Io, env: Env, path: seq<Step>, x: Value)
    requires Complete(o)
    requires EnvTree(o, io, env).Success? && EnvTree(o, io, env).value.Obj?
    requires At(EnvTree(o, io, env).value, path) == Some(x) && IsScalar(x)
    ensures Merged(o, io, env).Success? && At(Obj(Merged(o, io, env).value), path) == Some(x)
  {
    var files := LoadFiles(io, o, FilesToLoad(o.files.value, env)).0;
    Merge.ScalarWins(Some(Obj(files)), EnvTree(o, io, env).value, path, x);
  }

  /** With the built-in env parser, the environment tree is always an object (or the parser threw). */
  lemma DefaultEnvTreeIsObject(o: ModuleOptions, io: Io, env: Env)
    requires Complete(o) && o.envParser.value == DefaultEnvParser
    ensures EnvTree(o, io, env).Success? ==> EnvTree(o, io, env).value.Obj?
  {
    if DefaultEnvParser.BuildTree(env).Success? {
      DefaultEnvParser.BuildTreeIsObject(env);
    }
  }

  /**
   * The configuration is produced exactly when the environment tree builds
   * and validation reports no error, and it is then the converted instance.
   * Any validation error fails with the fixed message.
   */
  lemma ConfigOnlyWhenValid(o: ModuleOptions, io: Io, env0: Env)
    requires Complete(o)
    ensures var env := EnvAfterDotenv(o, io, env0);
      var r := Run(o, io, env0);
      (r.config.Success? <==>
        Merged(o, io, env).Success? &&
        |io.validate(io.toClass(o.configClass, Obj(Merged(o, io, env).value), o.classTransformerOptions.value),
                     o.classValidatorOptions.value)| == 0)
      && (r.config.Success? ==>
        r.config.value == io.toClass(o.configClass, Obj(Merged(o, io, env).value), o.classTransformerOptions.value))
      && (Merged(o, io, env).Success? && r.config.Failure? ==> r.config.error == ValidationFailed(ValidationMessage))
  {
  }

  /** Without `useDotenv`, dotenv is never consulted: any other `dotenv` gives the same outcome. */
  lemma DotenvOnlyWhenEnabled(o: ModuleOptions, io: Io, env0: Env, other: (map<string, Value>, Env) -> Env)
    requires Complete(o) && !o.useDotenv.value
    ensures Run(o, io.(dotenv := other), env0) == Run(o, io, env0)
  {
    var io' := io.(dotenv := other);
    assert EnvAfterDotenv(o, io', env0) == env0 == EnvAfterDotenv(o, io, env0);
    var paths := FilesToLoad(o.files.value, env0);
    LoadFilesIgnoresDotenv(io, o, paths, other);
    assert EnvTree(o, io', env0) == EnvTree(o, io, env0);
    assert Merged(o, io', env0) == Merged(o, io, env0);
  }

  lemma {:induction false} LoadFilesIgnoresDotenv(io: Io, o: ModuleOptions, paths: seq<string>, other: (map<string, Value>, Env) -> Env)
    requires Complete(o)
    ensures LoadFiles(io.(dotenv := other), o, paths) == LoadFiles(io, o, paths)
    decreases |paths|
  {
    if |paths| > 0 {
      LoadFilesIgnoresDotenv(io, o, paths[..|paths| - 1], other);
    }
  }

  /**
   * Loading `.env` comes first: with `useDotenv`, the outcome is that of a
   * run without it that starts from the environment dotenv produced. So the
   * locators, and the environment tree, see the loaded variables.
   */
  lemma DotenvBeforeLocators(o: ModuleOptions, io: Io, env0: Env)
    requires Complete(o) && o.useDotenv.value
    ensures Run(o, io, env0) == Run(o.(useDotenv := Some(false)), io, io.dotenv(o.dotEnvConfig.value, env0))
  {
    var o' := o.(useDotenv := Some(false));
    var env := io.dotenv(o.dotEnvConfig.value, env0);
    assert EnvAfterDotenv(o, io, env0) == env == EnvAfterDotenv(o', io, env);
    var paths := FilesToLoad(o.files.value, env);
    assert FilesToLoad(o'.files.value, env) == paths;
    LoadFilesSameParsers(io, o, o', paths);
    assert EnvTree(o', io, env) == EnvTree(o, io, env);
    assert Merged(o', io, env) == Merged(o, io, env);
  }

  /** `LoadFiles` reads only the parser options. */
  lemma {:induction false} LoadFilesSameParsers(io: Io, o: ModuleOptions, o': ModuleOptions, paths: seq<string>)
    requires Complete(o) && Complete(o')
    requires o.parsers == o'.parsers && o.defaultParser == o'.defaultParser
    ensures LoadFiles(io, o, paths) == LoadFiles(io, o', paths)
    decreases |paths|
  {
    if |paths| > 0 {
      LoadFilesSameParsers(io, o, o', paths[..|paths| - 1]);
    }
  }

  /** `suppressFailedFileLoads` is never read: its value changes nothing, log lines included. */
  lemma SuppressFlagIgnored(o: ModuleOptions, io: Io, env0: Env, b: bool)
    requires Complete(o)
    ensures Run(o.(suppressFailedFileLoads := Some(b)), io, env0) == Run(o, io, env0)
  {
    var o' := o.(suppressFailedFileLoads := Some(b));
    var env := EnvAfterDotenv(o, io, env0);
    assert EnvAfterDotenv(o', io, env0) == env;
    var paths := FilesToLoad(o.files.value, env);
    assert FilesToLoad(o'.files.value, env) == paths;
    LoadFilesSameParsers(io, o, o', paths);
    assert EnvTree(o', io, env) == EnvTree(o, io, env);
    assert Merged(o', io, env) == Merged(o, io, env);
  }

  /**
   * The inner loop of `getAllFilesToLoad`: each of one locator's paths is
   * appended unless it is already listed.
   */
  method AppendUnseen(filesToLoad: seq<string>, paths: seq<string>, ghost located: seq<string>) returns (r: seq<string>)
    requires filesToLoad == Dedup(located)
    ensures r == Dedup(located + paths)
  {
    r := filesToLoad;
    var j := 0;
    assert located + paths[..0] == located;
    while j < |paths|
      invariant 0 <= j <= |paths|
      invariant r == Dedup(located + paths[..j])
    {
      assert located + paths[..j + 1] == (located + paths[..j]) + [paths[j]];
      DedupSnoc(located + paths[..j], paths[j]);
      if paths[j] !in r {
        r := r + [paths[j]];
      }
      j := j + 1;
    }
    assert paths[..j] == paths;
  }

  // ---------------------------------------------------------------------
  // The service

  class Service {
    const io: Io
    /** The caller's options, completed with the defaults. */
    const options: ModuleOptions
    /** `process.env`. */
    var env: Env
    /** The validated configuration; set only by a successful `Initialize`. */
    var config: Option<Value>
    /** What the service wrote to the console, line by line. */
    var log: seq<string>

    /** The constructor's first step, `_.defaultsDeep(options, defaultOptions)`. */
    constructor (userOptions: ModuleOptions, io: Io, env: Env)
      ensures this.options == WithDefaults(userOptions) && this.io == io && this.env == env
      ensures config.None? && log == []
    {
      this.io := io;
      this.options := WithDefaults(userOptions);
      this.env := env;
      config := None;
      log := [];
    }

    /** `loadDotEnv`. */
    method LoadDotEnv()
      requires Complete(options)
      modifies this
      ensures env == io.dotenv(options.dotEnvConfig.value, old(env))
      ensures config == old(config) && log == old(log)
    {
      env := io.dotenv(options.dotEnvConfig.value, env);
    }

    /** `getAllFilesToLoad`. */
    method GetAllFilesToLoad() returns (filesToLoad: seq<string>)
      requires Complete(options)
      ensures filesToLoad == FilesToLoad(options.files.value, env)
    {
      var files := options.files.value;
      filesToLoad := [];
      var i := 0;
      while i < |files|
        invariant 0 <= i <= |files|
        invariant filesToLoad == Dedup(AllLocated(files[..i], env))
      {
        var paths := PathsFromLocator(files[i], env);
        filesToLoad := AppendUnseen(filesToLoad, paths, AllLocated(files[..i], env));
        AllLocatedSnoc(files, i, env);
        i := i + 1;
      }
      assert files[..i] == files;
    }

    /** `loadAndParseFile`: never throws; a failure logs a line and yields `{}`. */
    method LoadAndParseFile(path: string, parser: ParserClass) returns (tree: Value)
      modifies this
      ensures tree == LoadedFile(io, path, parser).0
      ensures log == old(log) + LoadedFile(io, path, parser).1
      ensures env == old(env) && config == old(config)
    {
      if path in io.contents {
        var content := io.contents[path];
        var parsed := io.parse(parser, content);
        if parsed.Some? {
          return parsed.value;
        }
      }
      log := log + [LoadFailureLine(path)];
      tree := Obj(map[]);
    }

    /** `loadConfigurationFiles`: every resolved file merged, in order, into `{}`. */
    method LoadConfigurationFiles() returns (extracted: map<string, Value>)
      requires Complete(options)
      modifies this
      ensures var loaded := LoadFiles(io, options, FilesToLoad(options.files.value, env));
        extracted == loaded.0 && log == old(log) + loaded.1
      ensures env == old(env) && config == old(config)
    {
      var filesToLoad := GetAllFilesToLoad();
      extracted := map[];
      var i := 0;
      while i < |filesToLoad|
        invariant 0 <= i <= |filesToLoad|
        invariant env == old(env) && config == old(config)
        invariant extracted == LoadFiles(io, options, filesToLoad[..i]).0
        invariant log == old(log) + LoadFiles(io, options, filesToLoad[..i]).1
      {
        var path := filesToLoad[i];
        var parser := ParserForPath(options.parsers.value, options.defaultParser.value, path);
        var parsed := LoadAndParseFile(path, parser);
        LoadFilesSnoc(io, options, filesToLoad, i);
        extracted := Merge.MergeTop(extracted, parsed);
        i := i + 1;
      }
      assert filesToLoad[..i] == filesToLoad;
    }

    /** `loadEnvConfiguration`. */
    method LoadEnvConfiguration() returns (r: Result<Value, InitError>)
      requires Complete(options)
      ensures r == EnvTree(options, io, env)
    {
      match options.envParser.value
      case DefaultEnvParser =>
        var t := DefaultEnvParser.Parse(env);
        if t.Success? {
          r := Success(t.value);
        } else {
          r := Failure(EnvParserThrew(t.error));
        }
      case CustomEnvParser(name) =>
        var t := io.customEnvParse(name, env);
        if t.Some? {
          r := Success(t.value);
        } else {
          r := Failure(CustomEnvParserThrew);
        }
    }

    /** `validateConfiguration`: logs and fails when the validator reports any error. */
    method ValidateConfiguration(configuration: Value) returns (err: Option<InitError>)
      requires Complete(options)
      modifies this
      ensures var errors := io.validate(configuration, options.classValidatorOptions.value);
        (err.None? <==> |errors| == 0)
        && (err.Some? ==> err.value == ValidationFailed(ValidationMessage) && log == old(log) + ValidationLog(errors))
        && (err.None? ==> log == old(log))
      ensures env == old(env) && config == old(config)
    {
      var errors := io.validate(configuration, options.classValidatorOptions.value);
      if |errors| > 0 {
        log := log + ValidationLog(errors);
        return Some(ValidationFailed(ValidationMessage));
      }
      return None;
    }

    /** `initialize`: the configuration is stored only after validation passed. */
    method Initialize() returns (err: Option<InitError>)
      requires Complete(options)
      modifies this
      ensures var r := Run(options, io, old(env));
        env == r.env && log == old(log) + r.log
        && (err.None? <==> r.config.Success?)
        && (r.config.Success? ==> config == Some(r.config.value))
        && (r.config.Failure? ==> err == Some(r.config.error) && config == old(config))
    {
      if options.useDotenv.value {
        LoadDotEnv();
      }
      var wholeConfiguration := LoadConfigurationFiles();
      var envConfig := LoadEnvConfiguration();
      if envConfig.Failure? {
        return Some(envConfig.error);
      }
      wholeConfiguration := Merge.MergeTop(wholeConfiguration, envConfig.value);
      var configInstance := io.toClass(options.configClass, Obj(wholeConfiguration), options.classTransformerOptions.value);
      err := ValidateConfiguration(configInstance);
      if err.None? {
        config := Some(configInstance);
      }
    }
  }

  /** `new ConfigurationService(options)`: defaults, then `initialize`; a failure means no service. */
  method Create(userOptions: ModuleOptions, io: Io, env: Env) returns (r: Result<Service, InitError>)
    ensures var run := Run(WithDefaults(userOptions), io, env);
      (r.Success? <==> run.config.Success?)
      && (r.Failure? ==> r.error == run.config.error)
      && (r.Success? ==>
            fresh(r.value) && r.value.options == WithDefaults(userOptions)
            && r.value.config == Some(run.config.value) && r.value.env == run.env && r.value.log == run.log)
  {
    var service := new Service(userOptions, io, env);
    var err := service.Initialize();
    if err.Some? {
      return Failure(err.value);
    }
    return Success(service);
  }
}
