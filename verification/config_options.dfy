/**
 * The options a caller passes to the configuration module. Every field may
 * be left unset (`None`); the service fills unset fields from the defaults
 * before it reads any of them.
 */
module ConfigOptions {
  import opened Wrappers
  import opened PlainData

  /** A parser class: the two built-in ones, or another class registered by the caller. */
  datatype ParserClass = JsonParser | YamlParser | CustomParser(name: string)

  /** The class that turns the environment into a tree. */
  datatype EnvParserClass = DefaultEnvParser | CustomEnvParser(name: string)

  /** The class the configuration object is converted into before validation. */
  datatype ConfigClass = ConfigClass(name: string)

  /** What a locator function returns: one path or an array of paths. */
  datatype LocatorResult = OnePath(path: string) | ManyPaths(paths: seq<string>)

  /** A file locator: a literal path, or a function of the environment. */
  datatype FileLocator = Literal(path: string) | Computed(locate: Env -> LocatorResult)

  datatype ModuleOptions = ModuleOptions(
    parsers: Option<map<string, ParserClass>>,
    isGlobal: Option<bool>,
    defaultParser: Option<ParserClass>,
    useDotenv: Option<bool>,
    envParser: Option<EnvParserClass>,
    dotEnvConfig: Option<map<string, Value>>,
    classTransformerOptions: Option<map<string, Value>>,
    classValidatorOptions: Option<map<string, Value>>,
    files: Option<seq<FileLocator>>,
    suppressFailedFileLoads: Option<bool>,
    configClass: Option<ConfigClass>)

  /** Options with nothing set. */
  const Unset: ModuleOptions :=
    ModuleOptions(None, None, None, None, None, None, None, None, None, None, None)

  /** Every field the service reads is set (`configClass` may stay `undefined`, `isGlobal` is never read). */
  predicate Complete(o: ModuleOptions) {
    o.parsers.Some? && o.defaultParser.Some? && o.useDotenv.Some? && o.envParser.Some?
    && o.dotEnvConfig.Some? && o.classTransformerOptions.Some? && o.classValidatorOptions.Some?
    && o.files.Some? && o.suppressFailedFileLoads.Some?
  }
}
