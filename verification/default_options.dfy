/**
 * The default options and how the service applies them: lodash
 * `defaultsDeep` fills every option the caller left `undefined`, and fills
 * the keys of an object-valued option that the caller's object lacks, while
 * every value the caller did set is kept.
 */
module DefaultOptions {
  import opened Wrappers
  import opened PlainData
  import opened ConfigOptions

  /** The parser registry by file extension. */
  const DefaultParsers: map<string, ParserClass> :=
    map[".json" := JsonParser, ".yaml" := YamlParser, ".yml" := YamlParser]

  /** The `class-transformer` options: implicit conversion on. */
  const DefaultTransformOptions: map<string, Value> := map["enableImplicitConversion" := Bool(true)]

  /** The `defaultOptions` constant. */
  const Defaults: ModuleOptions := ModuleOptions(
    parsers := Some(DefaultParsers),
    isGlobal := None,
    defaultParser := Some(JsonParser),
    useDotenv := Some(false),
    envParser := Some(DefaultEnvParser),
    dotEnvConfig := Some(map[]),
    classTransformerOptions := Some(DefaultTransformOptions),
    classValidatorOptions := Some(map[]),
    files := Some([]),
    suppressFailedFileLoads := Some(false),
    configClass := None)

  /** `defaultsDeep` on one option whose default is not an object with keys: a set value stays. */
  function Fill<T>(user: Option<T>, default: Option<T>): Option<T> {
    if user.Some? then user else default
  }

  /**
   * `defaultsDeep` on an object-valued option: the caller's keys keep their
   * values and the default's other keys are added. The defaults' objects
   * hold only scalars (or classes), so one level is the whole recursion.
   */
  function FillKeys<V>(user: Option<map<string, V>>, default: Option<map<string, V>>): Option<map<string, V>> {
    match user
    case None => default
    case Some(u) =>
      match default
      case None => user
      case Some(d) => Some(map k | k in u.Keys + d.Keys :: if k in u then u[k] else d[k])
  }

  /** `_.defaultsDeep(options, defaultOptions)`. */
  function WithDefaults(o: ModuleOptions): (r: ModuleOptions)
    ensures Complete(r)
    ensures r.configClass == o.configClass && r.isGlobal == o.isGlobal
  {
    ModuleOptions(
      parsers := FillKeys(o.parsers, Defaults.parsers),
      isGlobal := Fill(o.isGlobal, Defaults.isGlobal),
      defaultParser := Fill(o.defaultParser, Defaults.defaultParser),
      useDotenv := Fill(o.useDotenv, Defaults.useDotenv),
      envParser := Fill(o.envParser, Defaults.envParser),
      dotEnvConfig := FillKeys(o.dotEnvConfig, Defaults.dotEnvConfig),
      classTransformerOptions := FillKeys(o.classTransformerOptions, Defaults.classTransformerOptions),
      classValidatorOptions := FillKeys(o.classValidatorOptions, Defaults.classValidatorOptions),
      files := Fill(o.files, Defaults.files),
      suppressFailedFileLoads := Fill(o.suppressFailedFileLoads, Defaults.suppressFailedFileLoads),
      configClass := Fill(o.configClass, Defaults.configClass))
  }

  /** With nothing set, the options are exactly the defaults. */
  lemma NothingSetGivesDefaults()
    ensures WithDefaults(Unset) == Defaults
  {
  }

  /** Scalar options, the file list and the classes the caller set are kept; unset ones take the default. */
  lemma SetValuesKept(o: ModuleOptions)
    ensures var r := WithDefaults(o);
      (r.defaultParser == if o.defaultParser.Some? then o.defaultParser else Some(JsonParser))
      && (r.useDotenv == if o.useDotenv.Some? then o.useDotenv else Some(false))
      && (r.envParser == if o.envParser.Some? then o.envParser else Some(DefaultEnvParser))
      && (r.files == if o.files.Some? then o.files else Some([]))
      && (r.suppressFailedFileLoads == if o.suppressFailedFileLoads.Some? then o.suppressFailedFileLoads else Some(false))
  {
  }

  /**
   * The parser registry after the defaults: the caller's extensions keep the
   * caller's parsers, and the built-in extensions the caller did not
   * register are added.
   */
  lemma ParsersFilledByKey(o: ModuleOptions)
    ensures var p := WithDefaults(o).parsers.value;
      var u := if o.parsers.Some? then o.parsers.value else map[];
      p.Keys == u.Keys + {".json", ".yaml", ".yml"}
      && (forall e :: e in u ==> p[e] == u[e])
      && (forall e :: e in DefaultParsers && e !in u ==> p[e] == DefaultParsers[e])
  {
  }

  /** Implicit conversion is on unless the caller's transformer options say otherwise. */
  lemma ImplicitConversionByDefault(o: ModuleOptions)
    ensures var t := WithDefaults(o).classTransformerOptions.value;
      "enableImplicitConversion" in t
      && (o.classTransformerOptions.None? || "enableImplicitConversion" !in o.classTransformerOptions.value
          ==> t["enableImplicitConversion"] == Bool(true))
      && (o.classTransformerOptions.Some? ==> forall k :: k in o.classTransformerOptions.value ==>
            k in t && t[k] == o.classTransformerOptions.value[k])
  {
  }

  lemma FillKeysIdempotent<V>(user: Option<map<string, V>>, default: Option<map<string, V>>)
    ensures FillKeys(FillKeys(user, default), default) == FillKeys(user, default)
  {
    if default.Some? {
      var once := FillKeys(user, default).value;
      var twice := FillKeys(FillKeys(user, default), default).value;
      assert twice.Keys == once.Keys;
      assert forall k :: k in once ==> twice[k] == once[k];
      assert twice == once;
    }
  }

  /** Applying the defaults twice is applying them once. */
  lemma WithDefaultsIdempotent(o: ModuleOptions)
    ensures WithDefaults(WithDefaults(o)) == WithDefaults(o)
  {
    FillKeysIdempotent(o.parsers, Defaults.parsers);
    FillKeysIdempotent(o.dotEnvConfig, Defaults.dotEnvConfig);
    FillKeysIdempotent(o.classTransformerOptions, Defaults.classTransformerOptions);
    FillKeysIdempotent(o.classValidatorOptions, Defaults.classValidatorOptions);
  }
}
