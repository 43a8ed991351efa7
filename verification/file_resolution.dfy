/**
 * Which configuration files the service loads, in which order, and with
 * which parser: locators are evaluated against the environment, their paths
 * are collected without duplicates in first-seen order, and each path's
 * parser is chosen by the text from its last `.` on.
 */
module FileResolution {
  import opened Wrappers
  import opened PlainData
  import opened ConfigOptions
  import opened DefaultOptions

  // ---------------------------------------------------------------------
  // Locators

  /** `getPathsFromLocator`: the paths one locator yields. */
  function PathsFromLocator(locator: FileLocator, env: Env): seq<string>
  {
    match locator
    case Literal(path) => [path]
    case Computed(locate) =>
      match locate(env)
      case ManyPaths(paths) => paths
      case OnePath(path) => [path]
  }

  /** A literal path, a function's single path and a function's array of paths, as the source normalises them. */
  lemma LocatorShapes(locator: FileLocator, env: Env)
    ensures locator.Literal? ==> PathsFromLocator(locator, env) == [locator.path]
    ensures locator.Computed? && locator.locate(env).OnePath? ==>
      PathsFromLocator(locator, env) == [locator.locate(env).path]
    ensures locator.Computed? && locator.locate(env).ManyPaths? ==>
      PathsFromLocator(locator, env) == locator.locate(env).paths
  {
  }

  /** Every locator's paths, one locator after the other. */
  function AllLocated(files: seq<FileLocator>, env: Env): seq<string>
    decreases |files|
  {
    if |files| == 0 then []
    else AllLocated(files[..|files| - 1], env) + PathsFromLocator(files[|files| - 1], env)
  }

  /** `paths` with each path kept at its first occurrence only, as the `includes` check does. */
  function Dedup(paths: seq<string>): seq<string>
    decreases |paths|
  {
    if |paths| == 0 then []
    else
      var seen := Dedup(paths[..|paths| - 1]);
      var p := paths[|paths| - 1];
      if p in seen then seen else seen + [p]
  }

  /** One more path: it is appended unless it was seen before. */
  lemma DedupSnoc(paths: seq<string>, p: string)
    ensures Dedup(paths + [p]) == if p in Dedup(paths) then Dedup(paths) else Dedup(paths) + [p]
  {
    assert (paths + [p])[..|paths|] == paths;
  }

  /** One more locator: its paths follow those of the earlier ones. */
  lemma AllLocatedSnoc(files: seq<FileLocator>, i: nat, env: Env)
    requires i < |files|
    ensures AllLocated(files[..i + 1], env) == AllLocated(files[..i], env) + PathsFromLocator(files[i], env)
  {
    assert files[..i + 1][..i] == files[..i];
  }

  /** The result of `getAllFilesToLoad`. */
  function FilesToLoad(files: seq<FileLocator>, env: Env): seq<string>
  {
    Dedup(AllLocated(files, env))
  }

  // ---------------------------------------------------------------------
  // Properties of the de-duplication

  /** No path is listed twice. */
  lemma {:induction false} DedupDistinct(paths: seq<string>)
    ensures forall i, j :: 0 <= i < j < |Dedup(paths)| ==> Dedup(paths)[i] != Dedup(paths)[j]
    decreases |paths|
  {
    if |paths| > 0 {
      DedupDistinct(paths[..|paths| - 1]);
    }
  }

  /** Exactly the paths that occur are listed. */
  lemma {:induction false} DedupElements(paths: seq<string>)
    ensures forall p :: p in Dedup(paths) <==> p in paths
    decreases |paths|
  {
    if |paths| > 0 {
      var prefix := paths[..|paths| - 1];
      DedupElements(prefix);
      assert paths == prefix + [paths[|paths| - 1]];
    }
  }

  /** The position of the first occurrence of `p`. */
  function FirstIndex(s: seq<string>, p: string): (r: nat)
    requires p in s
    ensures r < |s| && s[r] == p && forall j :: 0 <= j < r ==> s[j] != p
  {
    if s[0] == p then 0 else 1 + FirstIndex(s[1..], p)
  }

  lemma {:induction false} FirstIndexAppend(s: seq<string>, x: string, p: string)
    requires p in s
    ensures FirstIndex(s + [x], p) == FirstIndex(s, p)
  {
    var k := FirstIndex(s, p);
    var k' := FirstIndex(s + [x], p);
    assert (s + [x])[k] == p;
    assert s[k'] == p by {
      if k' >= |s| {
        assert false;
      }
    }
  }

  /** The listed order is the order of first occurrence. */
  lemma {:induction false} DedupFirstSeenOrder(paths: seq<string>, p: string, q: string)
    requires p in paths && q in paths
    ensures p in Dedup(paths) && q in Dedup(paths)
      && (FirstIndex(Dedup(paths), p) < FirstIndex(Dedup(paths), q) <==> FirstIndex(paths, p) < FirstIndex(paths, q))
    decreases |paths|
  {
    DedupElements(paths);
    var n := |paths| - 1;
    var prefix, last := paths[..n], paths[n];
    assert paths == prefix + [last];
    var seen := Dedup(prefix);
    DedupElements(prefix);
    if p in prefix && q in prefix {
      DedupFirstSeenOrder(prefix, p, q);
      FirstIndexAppend(prefix, last, p);
      FirstIndexAppend(prefix, last, q);
      if last !in seen {
        FirstIndexAppend(seen, last, p);
        FirstIndexAppend(seen, last, q);
      }
    } else if p in prefix {
      // q occurs only at the end, in both sequences
      FirstIndexAppend(prefix, last, p);
      FirstIndexAppend(seen, last, p);
      assert FirstIndex(paths, q) == n;
      assert FirstIndex(Dedup(paths), q) == |seen|;
    } else if q in prefix {
      FirstIndexAppend(prefix, last, q);
      FirstIndexAppend(seen, last, q);
      assert FirstIndex(paths, p) == n;
      assert FirstIndex(Dedup(paths), p) == |seen|;
    }
  }

  /** Every path that some locator yields is loaded. */
  lemma {:induction false} LocatedPathsLoaded(files: seq<FileLocator>, env: Env, i: nat, p: string)
    requires i < |files| && p in PathsFromLocator(files[i], env)
    ensures p in FilesToLoad(files, env)
    decreases |files|
  {
    DedupElements(AllLocated(files, env));
    var n := |files| - 1;
    if i < n {
      assert files[..n][i] == files[i];
      LocatedPathsLoaded(files[..n], env, i, p);
      DedupElements(AllLocated(files[..n], env));
    }
  }

  /** `["a.json", (env) => "a.json", "b.yaml"]` loads `a.json` once, then `b.yaml`. */
  lemma RepeatedPathLoadedOnce(env: Env, locate: Env -> LocatorResult)
    requires locate(env) == OnePath("a.json")
    ensures FilesToLoad([Literal("a.json"), Computed(locate), Literal("b.yaml")], env) == ["a.json", "b.yaml"]
  {
    var files := [Literal("a.json"), Computed(locate), Literal("b.yaml")];
    assert files[..2][..1] == files[..1];
    assert files[..1][..0] == [];
    assert AllLocated(files[..1], env) == ["a.json"];
    assert PathsFromLocator(files[1], env) == ["a.json"];
    assert AllLocated(files[..2], env) == ["a.json", "a.json"];
    var all := AllLocated(files, env);
    assert all == ["a.json", "a.json", "b.yaml"];
    assert all[..2] == ["a.json", "a.json"];
    assert all[..2][..1] == all[..1] == ["a.json"];
    assert all[..1][..0] == [];
    assert Dedup(all[..1]) == ["a.json"];
    assert Dedup(all[..2]) == ["a.json"];
  }

  // ---------------------------------------------------------------------
  // Extensions and parser choice

  /** `s.lastIndexOf(c)`. */
  function LastIndexOf(s: string, c: char): (r: int)
    ensures -1 <= r < |s|
    ensures r >= 0 ==> s[r] == c
    ensures forall j :: r < j < |s| ==> s[j] != c
    decreases |s|
  {
    if |s| == 0 then -1
    else if s[|s| - 1] == c then |s| - 1
    else LastIndexOf(s[..|s| - 1], c)
  }

  /** `s.slice(start)`: a negative start counts from the end and is clamped at 0. */
  function SliceFrom(s: string, start: int): (r: string)
    ensures 0 <= start <= |s| ==> r == s[start..]
    ensures start < 0 ==> r == s[if |s| + start < 0 then 0 else |s| + start..]
  {
    var from := if start < 0 then (if |s| + start < 0 then 0 else |s| + start)
                else if start > |s| then |s| else start;
    s[from..]
  }

  /** The "extension" `getParserForPath` looks up. */
  function Extension(path: string): string
  {
    SliceFrom(path, LastIndexOf(path, '.'))
  }

  /** With a `.` in the path, the extension is the suffix from the last `.`. */
  lemma ExtensionAfterLastDot(stem: string, tail: string)
    requires '.' !in tail
    ensures Extension(stem + "." + tail) == "." + tail
  {
    var path := stem + "." + tail;
    var k := LastIndexOf(path, '.');
    assert path[|stem|] == '.';
    assert forall j :: |stem| < j < |path| ==> path[j] == tail[j - |stem| - 1];
    assert k == |stem|;
    assert path[k..] == "." + tail;
  }

  /** Without a `.`, `lastIndexOf` gives -1 and the "extension" is the last character. */
  lemma ExtensionWithoutDot(path: string)
    requires '.' !in path
    ensures |path| >= 1 ==> Extension(path) == [path[|path| - 1]]
    ensures |path| == 0 ==> Extension(path) == ""
  {
    var k := LastIndexOf(path, '.');
    assert forall j :: 0 <= j < |path| ==> path[j] != '.';
    assert k == -1;
  }

  /** `getParserForPath`: the registered parser for the extension, else the default parser. */
  function ParserForPath(parsers: map<string, ParserClass>, defaultParser: ParserClass, path: string): ParserClass
  {
    var ext := Extension(path);
    if ext in parsers then parsers[ext] else defaultParser
  }

  /** A path whose text after its last `.` is registered gets that parser; any other path the default one. */
  lemma ParserByExtension(parsers: map<string, ParserClass>, defaultParser: ParserClass, stem: string, tail: string)
    requires '.' !in tail
    ensures "." + tail in parsers ==> ParserForPath(parsers, defaultParser, stem + "." + tail) == parsers["." + tail]
    ensures "." + tail !in parsers ==> ParserForPath(parsers, defaultParser, stem + "." + tail) == defaultParser
  {
    ExtensionAfterLastDot(stem, tail);
  }

  /** With the default registry, `.json` files are parsed as JSON. */
  lemma JsonByDefault(defaultParser: ParserClass, stem: string)
    ensures ParserForPath(DefaultParsers, defaultParser, stem + ".json") == JsonParser
  {
    ParserByExtension(DefaultParsers, defaultParser, stem, "json");
    assert stem + ".json" == stem + "." + "json" && "." + "json" == ".json";
  }

  /** With the default registry, `.yaml` and `.yml` files are parsed as YAML. */
  lemma YamlByDefault(defaultParser: ParserClass, stem: string, tail: string)
    requires tail == "yaml" || tail == "yml"
    ensures ParserForPath(DefaultParsers, defaultParser, stem + "." + tail) == YamlParser
  {
    ParserByExtension(DefaultParsers, defaultParser, stem, tail);
    assert "." + tail == ".yaml" || "." + tail == ".yml";
  }

  /** The lookup is case-sensitive: `.JSON` is not registered and falls back to the default parser. */
  lemma UpperCaseExtensionFallsBack(defaultParser: ParserClass, stem: string)
    ensures ParserForPath(DefaultParsers, defaultParser, stem + ".JSON") == defaultParser
  {
    ParserByExtension(DefaultParsers, defaultParser, stem, "JSON");
    assert stem + ".JSON" == stem + "." + "JSON" && "." + "JSON" == ".JSON";
  }

  /**
   * A path without `.` is looked up by its last character, which no
   * registered extension matches in the default registry.
   */
  lemma PathWithoutDotFallsBack(defaultParser: ParserClass, path: string)
    requires '.' !in path
    ensures ParserForPath(DefaultParsers, defaultParser, path) == defaultParser
  {
    ExtensionWithoutDot(path);
  }
}
