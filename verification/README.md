# Configuration resolution of a NestJS configuration module, in Dafny

The library builds one validated configuration object for a NestJS
application. The caller's options are first completed with the library's
defaults (`_.defaultsDeep`). Then `initialize` runs these steps in order:

1. It optionally loads a `.env` file into `process.env` (`dotenv`).
2. It resolves the file locators against the environment: each is a literal
   path or a function of the environment. Paths are kept in first-seen order
   without duplicates.
3. It reads and parses every file with the parser registered for its
   extension. A file that cannot be read or parsed logs a line and adds `{}`.
4. It deep-merges the files in order (`_.merge`).
5. It decodes the environment into a tree with `DefaultEnvParser` and merges
   that tree over the files' tree.
6. It converts the result into the configuration class and validates it. Any
   validation error throws; the configuration is stored only if validation
   passes.

`DefaultEnvParser` decodes one variable name at a time:
- It lower-cases the name and splits it on `__`.
- It camel-cases each piece: `_x` becomes `X`.
- It reads a piece ending in `-<digits>` as an element of an array.
- It then walks the tree, creating objects and arrays and padding arrays with
  `{}`.
- An array part over an existing truthy non-array value throws
  `Cannot turn object into array. Key: <path>`.

The modules follow the program's structure:

| module | file | models |
|---|---|---|
| `Wrappers`, `Text`, `PlainData` | `wrappers.dfy`, `text.dfy`, `plain_data.dfy` | `Option`/`Result`; JavaScript `split`, `join`, ASCII case mapping and numerals; the plain-data tree and JavaScript property reads and writes |
| `ConfigOptions`, `DefaultOptions` | `config_options.dfy`, `default_options.dfy` | the module options; the `defaultOptions` constant and `defaultsDeep` |
| `EnvKey` | `env_key.dfy` | `transformKey` and `parsePathPart` (with `parseInt`) |
| `DefaultEnvParser` | `default_env_parser.dfy` | `setValue` and `parse`, as functions on values and as the imperative methods proved equal to them |
| `DefaultEnvParserExamples` | `env_examples.dfy` | the parser's behaviour on pairs of variables, for any names made of capital letters |
| `Merge` | `merge.dfy` | lodash `_.merge` as the service calls it |
| `FileResolution` | `file_resolution.dfy` | `getPathsFromLocator`, `getAllFilesToLoad`, `getParserForPath` |
| `ConfigurationService` | `configuration_service.dfy` | the pipeline as functions (`Run`), and the service as a class whose methods are proved against them |

The code the service calls but does not contain is a parameter, the record
`ConfigurationService.Io`:
- file reading is a map from readable paths to their contents;
- the parsers are a function that may fail;
- `dotenv.config` is a function from the environment to the environment;
- a caller's environment parser is a function that may fail;
- `plainToClass` and `validateSync` are functions.

`process.env` is the service's `env` field. The console is the service's
`log` field.

Four behaviours of the code are easy to misread:
- A variable `FOO-0` followed by `FOO__BAR` does not throw. The array is reused
  and gets a named property (`DefaultEnvParserExamples.ArrayThenObject`). Only
  the opposite order throws (`ObjectThenArray`). So the tree built from the
  environment depends on the order of the variables.
- `_.merge` merges arrays index by index; it does not replace them wholesale.
  A shorter later array leaves the earlier array's tail in place
  (`Merge.TailKept`, `Merge.ArraysMergeByIndex`).
- The option `suppressFailedFileLoads` is documented as "if true no error will
  be logged" (src/interfaces/config-options.interface.ts:77-80), but the
  service never reads it: a failed file is always logged
  (`ConfigurationService.SuppressFlagIgnored`).
- The validation error is one fixed message, not the list of violations; the
  violations are only logged. The message's spelling `Confguration` is kept.

## Model

| member | source | states |
|---|---|---|
| PlainData.Truthy | src/parsers/default-env.parser.ts:29 | JavaScript truthiness: `""`, `0`, `false` and `null` are falsy; every object and array is truthy |
| PlainData.TruthyRead | src/parsers/default-env.parser.ts:36 | the tests `acc[k]` and `!acc[k]`: a missing property is falsy |
| PlainData.Lookup | src/configuration.service.ts:108 | a named entry, as `_.merge` lists one, exists only on an object or an array |
| PlainData.IndexOfKey | src/parsers/default-env.parser.ts:29 | the canonical array-index keys: a key denotes an index exactly when it is the numeral of a number below 2^32 - 1 |
| PlainData.IndexOfNumeral | src/parsers/default-env.parser.ts:48 | the numeral of every number below 2^32 - 1 is the key of that index |
| PlainData.Get | src/parsers/default-env.parser.ts:29 | `acc[k]`: an object's own entry; an array's element for an index key, its length for `length`, else its named property; a string's character or length; nothing on a number or boolean; `GetNamed` and `GetElement` state its cases |
| PlainData.GetNamed | src/parsers/default-env.parser.ts:59-63 | on an object, and on an array for a key that is neither an index nor `length`, the read finds the named entry |
| PlainData.GetElement | src/parsers/default-env.parser.ts:55 | on an array, the key of an index reads that element, or nothing past the end |
| PlainData.Reach | src/parsers/default-env.parser.ts:44-63 | `v[k0][k1]…`, reads one after another, ending at the first missing property; `SetPathReadBack` is stated with it |
| PlainData.At | src/configuration.service.ts:108 | the value at a path of named keys and array indices, as the merge tree is read; `ScalarWins`, `LaterFileWins` and `EnvWinsOverFiles` are stated with it |
| PlainData.Put | src/parsers/default-env.parser.ts:50 | a property write on an object or array sets that key, leaves every other key and the elements as they were, and keeps the kind of container |
| Text.Join | src/parsers/default-env.parser.ts:31 | `path.join('__')`, the text the conflict error shows; `Text.JoinSplit` proves it undoes `Split` |
| Text.Split | src/parsers/default-env.parser.ts:16 | `split` with a non-empty separator always yields at least one piece |
| Text.UpperChar | src/parsers/default-env.parser.ts:18 | `toUpperCase` maps a lower-case ASCII letter to the capital that lower-cases back to it, and leaves `_` alone |
| Text.LowerChar | src/parsers/default-env.parser.ts:15 | `toLowerCase` on one character: a capital becomes its lower-case letter, and the result is never a capital |
| Text.Lower | src/parsers/default-env.parser.ts:15 | `toLowerCase`: same length, every character lower-cased |
| Text.JoinSplit | src/parsers/default-env.parser.ts:16 | joining the pieces of a split with the separator gives back the split string |
| Text.SplitLeftmost | src/parsers/default-env.parser.ts:16 | no piece contains the separator, and the separator after each piece but the last is the first occurrence after the piece's start, so matching is leftmost and non-overlapping |
| Text.SplitWithoutSeparator | src/parsers/default-env.parser.ts:78 | a string without the one-character separator is a single piece |
| Text.SplitAtFirst | src/parsers/default-env.parser.ts:78 | splitting `x + sep + y`, where `x` has no separator, gives `x` followed by the pieces of `y` |
| Text.NatToDecimal | src/parsers/default-env.parser.ts:79 | a decimal numeral is non-empty, made of digits, and has no leading zero |
| Text.DecimalRoundTrip | src/parsers/default-env.parser.ts:79 | reading back the numeral of `n` gives `n` |
| Text.NatToDecimalInjective | src/parsers/default-env.parser.ts:79 | two numbers with the same numeral are equal |
| Text.DecimalPositive | src/parsers/default-env.parser.ts:29 | a numeral without a leading zero has a positive value |
| Text.CanonicalNumeral | src/parsers/default-env.parser.ts:29 | a numeral with no leading zero (or the single digit `0`) is the numeral of its own value |
| EnvKey.CamelCase | src/parsers/default-env.parser.ts:18 | the replacement of `_` and the character after it by that character upper-cased; its properties are `CamelCaseRemovesUnderscores`, `CamelCaseWithoutUnderscore`, `CamelCaseAppend` and `SnakeCamelRoundTrip` |
| EnvKey.CamelCaseRemovesUnderscores | src/parsers/default-env.parser.ts:18 | in a piece without `__`, every `_` except a last one, or one before a line terminator, is removed by the replacement |
| EnvKey.CamelCaseWithoutUnderscore | src/parsers/default-env.parser.ts:18 | a piece without `_` is unchanged by the replacement |
| EnvKey.CamelCaseAppend | src/parsers/default-env.parser.ts:18 | the replacement passes over a prefix that has no underscore |
| EnvKey.SnakeCamelRoundTrip | src/parsers/default-env.parser.ts:17-19 | on a lower-case piece where every `_` is followed by a letter, turning each capital `X` back into `_x` restores the piece |
| EnvKey.TransformKey | src/parsers/default-env.parser.ts:13-19 | every name decodes to at least one part |
| EnvKey.TransformKeyDecodes | src/parsers/default-env.parser.ts:13-19 | the parts are the camel-cased pieces of the lower-cased name cut leftmost-first at `__`; the pieces join back to the lower-cased name; no part keeps an inner underscore |
| EnvKey.DecodeSinglePart | src/parsers/default-env.parser.ts:13-19 | a name without underscores decodes to its lower-cased text alone |
| EnvKey.DecodeTwoParts | src/parsers/default-env.parser.ts:13-19 | `X__Y`, with no other underscore, decodes to the two lower-cased parts |
| EnvKey.DecodeThreeParts | src/parsers/default-env.parser.ts:13-19 | `X__Y__Z`, with no other underscore, decodes to the three lower-cased parts |
| EnvKey.DecodeCamel | src/parsers/default-env.parser.ts:13-19 | `X_Y` decodes to one part, `x` followed by the capitalised first letter of `y` and the rest of `y` |
| EnvKey.DecodeEmptyPart | src/parsers/default-env.parser.ts:13-19 | `X____Y` decodes to `x`, an empty part, and `y` |
| EnvKey.SplitNoDoubleUnderscore | src/parsers/default-env.parser.ts:16 | a name without `__` is one piece |
| EnvKey.SplitAtFirstDouble | src/parsers/default-env.parser.ts:16 | `x + "__" + y`, with no underscore in `x`, splits into `x` and the pieces of `y` |
| EnvKey.TrailingDigits | src/parsers/default-env.parser.ts:77 | the count of digits at the end of a part: those characters are digits and the one before them is not |
| EnvKey.MatchesArraySuffix | src/parsers/default-env.parser.ts:77 | the test `part.match(/.*-\d+$/)`: trailing digits with a `-` before them; `ArraySuffixIff` states it |
| EnvKey.ArraySuffixIff | src/parsers/default-env.parser.ts:77 | the test `/.*-\d+$/` holds exactly when the part has a `-` followed only by one or more digits up to its end |
| EnvKey.DropLeadingWhiteSpace | src/parsers/default-env.parser.ts:79 | `parseInt` skips the longest prefix of white space and line terminators: every dropped character is one, and the rest does not start with one |
| EnvKey.LeadingDigits | src/parsers/default-env.parser.ts:79 | `parseInt` reads the longest prefix of digits |
| EnvKey.ParseIndex | src/parsers/default-env.parser.ts:79 | `parseInt(index, 10)`: white space skipped, an optional `+`, the longest run of digits, `NaN` without a digit; `ParseDigits` and `LetterIsNotANumber` state its two outcomes |
| EnvKey.ParseDigits | src/parsers/default-env.parser.ts:79 | `parseInt` of a numeral is its value |
| EnvKey.LetterIsNotANumber | src/parsers/default-env.parser.ts:79 | `parseInt` of a piece that starts with a letter is `NaN` |
| EnvKey.ParsePathPart | src/parsers/default-env.parser.ts:72-83 | `parsePathPart`: the element of the text before the first `-` at `parseInt` of the text after it, when the part ends in `-<digits>`; else the plain part; `ParsePathPartKind`, `ParseSingleDash`, `ParseTwoDashes` and `PathPartRoundTrip` state what it returns |
| EnvKey.ParsePathPartKind | src/parsers/default-env.parser.ts:72-83 | a part is an array element exactly when it ends in `-<digits>`; otherwise it is the plain key of the whole part |
| EnvKey.ParseSingleDash | src/parsers/default-env.parser.ts:77-79 | `key-digits`, with no other `-`, is the element of `key` at the value of the digits |
| EnvKey.DigitsSplit | src/parsers/default-env.parser.ts:78 | `key-digits`, with no `-` in `key`, splits on `-` into the key and the digits |
| EnvKey.ParseTwoDashes | src/parsers/default-env.parser.ts:78-79 | with two dashes the index is `parseInt` of the middle piece, not of the trailing digits |
| EnvKey.PathPartRoundTrip | src/parsers/default-env.parser.ts:72-83 | parsing the text `key` or `key-n` of a representable part gives the part back |
| EnvKey.PlainWhenNoDigitAtEnd | src/parsers/default-env.parser.ts:77-82 | a part that does not end in a digit is a plain key |
| DefaultEnvParser.Padded | src/parsers/default-env.parser.ts:39-41 | padding keeps the existing elements, appends `{}` until the length exceeds the index, and never shortens |
| DefaultEnvParser.IndexKey | src/parsers/default-env.parser.ts:48 | the key `acc[key][arrayIndex]` uses: for an index below 2^32 - 1 the key of that index, for `NaN` a named key, never `length` |
| DefaultEnvParser.Assign | src/parsers/default-env.parser.ts:36 | `v[k] = x` in strict mode, in both directions: it succeeds exactly on an object or array, except for `length` set to anything but `[]` and for an index past the end plus one; the error is `TypeError` on a primitive, `RangeError` for `length` set to an object; reading `k` back gives `x`; the kind of container is kept |
| DefaultEnvParser.AssignFrame | src/parsers/default-env.parser.ts:48-50 | a write at one key leaves every other key's value as it was (an array's `length` aside) |
| DefaultEnvParser.AssignElement | src/parsers/default-env.parser.ts:48 | on an array, writing the key of a covered index replaces that element and keeps the others and the named properties |
| DefaultEnvParser.Grown | src/parsers/default-env.parser.ts:36-41 | the target array covers a numeric index and keeps its named properties |
| DefaultEnvParser.Grow | src/parsers/default-env.parser.ts:39-41 | the padding loop on `holder[k]`: an array is padded to cover the index, and from index 2^32 - 1 on `push` throws a `RangeError`; a string too short for the index throws a `TypeError` (a case `SetElement` never reaches: a truthy string is the conflict, an empty one is replaced by `[]`); the holder keeps its kind |
| DefaultEnvParser.GrowFrame | src/parsers/default-env.parser.ts:39-41 | padding the array at `k` leaves every other key as it was |
| DefaultEnvParser.Decoded | src/parsers/default-env.parser.ts:25 | every part of the path is classified by `parsePathPart` |
| DefaultEnvParser.SetPath | src/parsers/default-env.parser.ts:23-64 | one step of the `reduce` and the rest of the path after it: a step below `null` is a `TypeError`, and each part goes to `SetField` or `SetElement`; `SetPathKind`, `SetPathReadBack` and `SetPathFrame` state its effect |
| DefaultEnvParser.SetField | src/parsers/default-env.parser.ts:45-63 | a plain part: the last one assigns the value; any other reads `acc[part]` (an element or the length on an array, a character on a string), writes `{}` there if it is falsy, and descends; `PlainStepReuses` and `LastPlainOverwrites` state it |
| DefaultEnvParser.Descend | src/parsers/default-env.parser.ts:55-63 | `return holder[key]`, the rest of the path below that child, and the changed child written back; `DescendShape` states it |
| DefaultEnvParser.SetElement | src/parsers/default-env.parser.ts:27-56 | an element part: a truthy non-array read at its key (an array's element or `length` included) throws the conflict error; otherwise the array (or a new `[]`) is grown to the index and the last part writes the element, any other descends into it; `ElementShape`, `ElementStepGrowsArray`, `ElementOverObjectThrows` and `ElementOverFalsyReplaces` state it |
| DefaultEnvParser.SetEntry | src/parsers/default-env.parser.ts:7-8 | one variable: its name decoded by `transformKey`, then `setValue` with the value |
| DefaultEnvParser.BuildFrom | src/parsers/default-env.parser.ts:6-9 | the `forEach` over the variables in key order, stopping at the first throw |
| DefaultEnvParser.BuildTree | src/parsers/default-env.parser.ts:4-11 | `parse`: the variables written into a fresh `{}`; `BuildTreeIsObject` and `LastVariableWins` state its result |
| DefaultEnvParser.PathKeys | src/parsers/default-env.parser.ts:44-63 | the property keys the walk reads, in order: each part's key, and for an element part the index's key after it |
| DefaultEnvParser.ReachCons | src/parsers/default-env.parser.ts:44-63 | reading `[k] + rest` is reading `k`, then `rest` below it |
| DefaultEnvParser.SetPathKind | src/parsers/default-env.parser.ts:23-64 | a successful write starts from an object or an array and returns the same kind of container |
| DefaultEnvParser.LengthKeyFails | src/parsers/default-env.parser.ts:29-63 | on an array, a path whose first key is `length` never succeeds: the length is a number, and a write below it or on `length` fails |
| DefaultEnvParser.DescendShape | src/parsers/default-env.parser.ts:55-63 | a successful descent found a child, and the holder then holds the child's new tree at the key |
| DefaultEnvParser.ElementShape | src/parsers/default-env.parser.ts:27-56 | the trees a successful element part passes through: no conflict, the holder, the grown array, the element write, and the result written back at the key |
| DefaultEnvParser.SetPathReadBack | src/parsers/default-env.parser.ts:44-63 | after a successful write, reading the path's keys one after another, as JavaScript reads them, finds the value |
| DefaultEnvParser.SetPathFrame | src/parsers/default-env.parser.ts:22-63 | a successful write needs an object or array, changes no key but the first part's (and an array's `length`), and keeps an object an object |
| DefaultEnvParser.ElementStepGrowsArray | src/parsers/default-env.parser.ts:36-41 | an element part leaves the array at its key long enough for the index; earlier elements are kept and new slots hold `{}` |
| DefaultEnvParser.ElementOverObjectThrows | src/parsers/default-env.parser.ts:29-33 | an element part whose key reads a truthy non-array (an object, a string, an array's element or its `length`) throws the conflict error naming the whole joined path |
| DefaultEnvParser.ElementOverFalsyReplaces | src/parsers/default-env.parser.ts:29-36 | an element part over a falsy value behaves as if `[]` were there |
| DefaultEnvParser.PlainStepReuses | src/parsers/default-env.parser.ts:59-63 | a non-last plain part descends into the truthy value at its key, arrays included |
| DefaultEnvParser.LastPlainOverwrites | src/parsers/default-env.parser.ts:45-50 | the last plain part overwrites the value at its key |
| DefaultEnvParser.BuildFromIsObject | src/parsers/default-env.parser.ts:4-11 | writing variables into an object leaves an object |
| DefaultEnvParser.BuildFromStops | src/parsers/default-env.parser.ts:6-9 | once a variable throws, `parse` throws that error and later variables are not applied |
| DefaultEnvParser.LastVariableWins | src/parsers/default-env.parser.ts:4-11 | reading the last variable's decoded path in the finished tree finds its value |
| DefaultEnvParser.BuildTreeIsObject | src/parsers/default-env.parser.ts:4-11 | `parse` returns an object whenever it does not throw |
| DefaultEnvParser.PadArray | src/parsers/default-env.parser.ts:39-41 | the `push({})` loop gives the padded elements: existing ones kept, `{}` after them, longer than the index |
| DefaultEnvParser.SetFrom | src/parsers/default-env.parser.ts:23-64 | the `reduce` over the path computes `SetPath` of the decoded parts, errors included |
| DefaultEnvParser.FieldFrom | src/parsers/default-env.parser.ts:45-63 | a plain step computes `SetField` |
| DefaultEnvParser.ElementFrom | src/parsers/default-env.parser.ts:27-56 | an element step computes `SetElement` |
| DefaultEnvParser.DescendFrom | src/parsers/default-env.parser.ts:55-63 | a descent computes `Descend` |
| DefaultEnvParser.GrowFrom | src/parsers/default-env.parser.ts:36-41 | the padding step computes `Grow`, through the `push({})` loop of `PadArray` |
| DefaultEnvParser.SetValue | src/parsers/default-env.parser.ts:22-65 | `setValue` is `SetPath` of the decoded path, and reading the path's keys in the new tree finds the value |
| DefaultEnvParser.Parse | src/parsers/default-env.parser.ts:4-11 | `parse` writes every variable in key order into `{}` and returns `BuildTree`, always an object |
| DefaultEnvParserExamples.WordDecodes | src/parsers/default-env.parser.ts:13-19 | a name of capital letters decodes to its lower-case text |
| DefaultEnvParserExamples.ElementName | src/parsers/default-env.parser.ts:13-19 | `X-d` decodes to the one part `x-d`, the element `d` of `x` |
| DefaultEnvParserExamples.PairElementName | src/parsers/default-env.parser.ts:13-19 | `X__Y-d` decodes to the parts `x` and `y-d` |
| DefaultEnvParserExamples.ElementEntry | src/parsers/default-env.parser.ts:7-8 | `X-d` writes along the path of one element part of key `x` |
| DefaultEnvParserExamples.PairEntry | src/parsers/default-env.parser.ts:7-8 | `X__Y` writes along the path of two plain parts |
| DefaultEnvParserExamples.PairElementEntry | src/parsers/default-env.parser.ts:7-8 | `X__Y-d` writes along a plain part followed by an element part of key `y` |
| DefaultEnvParserExamples.WordEntry | src/parsers/default-env.parser.ts:7-8 | `X` writes along the path of one plain part |
| DefaultEnvParserExamples.BuildTwo | src/parsers/default-env.parser.ts:6-9 | with two variables, the second is applied to the tree the first produced |
| DefaultEnvParserExamples.FieldDescends | src/parsers/default-env.parser.ts:58-63 | a plain part followed by one more part descends into the truthy value there or a new `{}` |
| DefaultEnvParserExamples.NewArray | src/parsers/default-env.parser.ts:36-48 | an element part at index 0 over a missing key or `""` creates the array `[v]` |
| DefaultEnvParserExamples.NewNestedArray | src/parsers/default-env.parser.ts:36-59 | `[x, y-0]` into `{}` gives `{x: {y: [v]}}` |
| DefaultEnvParserExamples.SecondArrayElement | src/parsers/default-env.parser.ts:39-48 | index 1 into a one-element array grows it to two elements |
| DefaultEnvParserExamples.AppendNestedElement | src/parsers/default-env.parser.ts:39-63 | `[x, y-1]` into `{x: {y: [a]}}` gives `{x: {y: [a, v]}}` |
| DefaultEnvParserExamples.PropertyOnArray | src/parsers/default-env.parser.ts:50-63 | a plain part below an array, for a key that is neither an index nor `length`, sets a named property on the array |
| DefaultEnvParserExamples.NewNestedObject | src/parsers/default-env.parser.ts:50-59 | `[x, y]` into `{}` gives `{x: {y: v}}` |
| DefaultEnvParserExamples.PlainOverString | src/parsers/default-env.parser.ts:59-63 | descending into a non-empty string and writing there throws a `TypeError` |
| DefaultEnvParserExamples.FirstElement | src/parsers/default-env.parser.ts:22-65 | `X__Y-0=a` into `{}` gives `{x: {y: [a]}}` |
| DefaultEnvParserExamples.SecondElement | src/parsers/default-env.parser.ts:22-65 | `X__Y-1=b` then appends `b` to that array |
| DefaultEnvParserExamples.ElementsFillArray | src/parsers/default-env.parser.ts:4-11 | `X__Y-0=a, X__Y-1=b` gives `{x: {y: [a, b]}}` |
| DefaultEnvParserExamples.ElementIntoEmpty | src/parsers/default-env.parser.ts:22-65 | `X-0=a` into `{}` gives `{x: [a]}` |
| DefaultEnvParserExamples.PlainBelowArray | src/parsers/default-env.parser.ts:22-65 | `X__Y=b` over `{x: [a]}` sets the property `y` on the array |
| DefaultEnvParserExamples.ArrayThenObject | src/parsers/default-env.parser.ts:4-11 | `X-0=a` then `X__Y=b` (with `Y` other than `LENGTH`) gives `{x: [a]}` with the property `y: b` on the array, without error |
| DefaultEnvParserExamples.PlainIntoEmpty | src/parsers/default-env.parser.ts:22-65 | `X__Y=b` into `{}` gives `{x: {y: b}}` |
| DefaultEnvParserExamples.ElementIntoObject | src/parsers/default-env.parser.ts:29-33 | `X-0=a` over `{x: {y: b}}` throws the conflict error for key `x-0` |
| DefaultEnvParserExamples.ObjectThenArray | src/parsers/default-env.parser.ts:4-33 | `X__Y=b` then `X-0=a` throws the conflict error for key `x-0` |
| DefaultEnvParserExamples.WordIntoEmpty | src/parsers/default-env.parser.ts:45-50 | `X=v` into `{}` gives `{x: v}` |
| DefaultEnvParserExamples.PlainIntoString | src/parsers/default-env.parser.ts:59-63 | `X__Y=b` over `{x: a}`, with `a` non-empty, throws a `TypeError` |
| DefaultEnvParserExamples.IntoString | src/parsers/default-env.parser.ts:4-11 | `X=a` (non-empty) then `X__Y=b` throws a `TypeError` |
| DefaultEnvParserExamples.ElementIntoFalsy | src/parsers/default-env.parser.ts:29-48 | `X-0=a` over `{x: ""}` gives `{x: [a]}` |
| DefaultEnvParserExamples.FalsyReplaced | src/parsers/default-env.parser.ts:4-11 | `X=""` then `X-0=a` gives `{x: [a]}`: the empty string is falsy and replaced without error |
| DefaultEnvParserExamples.WordNotIndex | src/parsers/default-env.parser.ts:29 | a lower-cased word is never an array-index key |
| DefaultEnvParserExamples.OneElementReads | src/parsers/default-env.parser.ts:29 | the array `[a]` reads `a` at the key `0` and `1` at `length` |
| DefaultEnvParserExamples.ElementBelowElement | src/parsers/default-env.parser.ts:29-33 | `[x, 0-1]` into `{x: [a]}`, `a` non-empty, throws the conflict error: `x[0]` is a truthy string |
| DefaultEnvParserExamples.ElementBelowLength | src/parsers/default-env.parser.ts:29-33 | `[x, length-0]` into `{x: [a]}` throws the conflict error: `x.length` is the truthy number 1 |
| DefaultEnvParserExamples.PlainBelowStringElement | src/parsers/default-env.parser.ts:50-63 | `[x, 0, y]` into `{x: [a]}`, `a` non-empty, descends into the string `a` and throws a `TypeError` |
| DefaultEnvParserExamples.ElementKeyEntry | src/parsers/default-env.parser.ts:7-8 | `X__0-1` writes along `[x, 0-1]`, an element part of the key `0` |
| DefaultEnvParserExamples.LengthKeyEntry | src/parsers/default-env.parser.ts:7-8 | `X__LENGTH-0` writes along `[x, length-0]` |
| DefaultEnvParserExamples.StringElementEntry | src/parsers/default-env.parser.ts:7-8 | `X__0__Y` writes along three plain parts `[x, 0, y]` |
| DefaultEnvParserExamples.ElementKeyConflict | src/parsers/default-env.parser.ts:4-33 | `X-0=a` (non-empty) then `X__0-1=b` throws the conflict error for the key `x__0-1` |
| DefaultEnvParserExamples.LengthKeyConflict | src/parsers/default-env.parser.ts:4-33 | `X-0=a` then `X__LENGTH-0=b` throws the conflict error for the key `x__length-0` |
| DefaultEnvParserExamples.IntoStringElement | src/parsers/default-env.parser.ts:4-63 | `X-0=a` (non-empty) then `X__0__Y=b` throws a `TypeError` |
| Merge.MergeValue | src/configuration.service.ts:108 | a scalar source replaces the destination; an object source yields a container that is an array exactly when the destination was one; an array source yields an array as long as the longer of the two |
| Merge.MergeFields | src/configuration.service.ts:108 | every key of either side is kept; the source's keys are merged into the destination's values; the other destination keys stay |
| Merge.MergeElems | src/configuration.service.ts:108 | elements merge index by index; the destination's elements past the source's end stay |
| Merge.IndexEntries | src/configuration.service.ts:108 | an array or string source at the top level contributes exactly its indices, as numerals, with their elements |
| Merge.SourceEntries | src/configuration.service.ts:108 | the entries `_.merge` reads from a top-level source: an object's keys, an array's indices and named properties, a string's indices with its characters, nothing for a number or boolean; `MergeTop` states what is merged |
| Merge.MergeTop | src/configuration.service.ts:108 | a falsy source leaves the configuration unchanged; otherwise the keys are those of both; an object source is merged as a nested object would be |
| Merge.MergeIntoNothing | src/configuration.service.ts:108 | merging into a missing destination copies the source |
| Merge.MergeSelf | src/configuration.service.ts:108 | merging a tree into an equal tree changes nothing |
| Merge.ScalarWins | src/configuration.service.ts:108 | wherever the source has a scalar, the merged tree has that scalar at the same path |
| Merge.UntouchedKeyKept | src/configuration.service.ts:108 | keys the source lacks keep the destination's value when the destination is reused |
| Merge.TailKept | src/configuration.service.ts:108 | a shorter source array leaves the destination's later elements in place |
| Merge.ArrayOverNonArray | src/configuration.service.ts:108 | an array source over a non-array discards the old value |
| Merge.ObjectOverScalar | src/configuration.service.ts:108 | an object source over a scalar discards the scalar |
| Merge.InnerObjectsCombine | src/configuration.service.ts:108 | `{x: 1}` merged with `{y: 2}` is `{x: 1, y: 2}` |
| Merge.SingleKeyMerge | src/configuration.service.ts:108 | merging a one-key object touches only that key |
| Merge.TopIntoEmpty | src/configuration.service.ts:102-108 | the first file merged into `{}` is copied |
| Merge.NestedObjectsCombine | src/configuration.service.ts:102-109 | merging `{a: 1, b: {x: 1}}` then `{b: {y: 2}}` into `{}` gives `{a: 1, b: {x: 1, y: 2}}` |
| Merge.ArraysMergeByIndex | src/configuration.service.ts:108 | `{a: [9]}` over `{a: [1, 2, 3]}` gives `{a: [9, 2, 3]}` |
| DefaultOptions.WithDefaults | src/configuration.service.ts:36 | after the defaults every option the service reads is set, and `configClass` and `isGlobal` are the caller's |
| DefaultOptions.Fill | src/configuration.service.ts:36 | `defaultsDeep` on an option whose default is not an object: a value the caller set stays, an unset one takes the default; `SetValuesKept` states it |
| DefaultOptions.FillKeys | src/configuration.service.ts:36 | `defaultsDeep` on an object option: the caller's keys keep their values and the default's other keys are added; `ParsersFilledByKey` and `FillKeysIdempotent` state it |
| DefaultOptions.FillKeysIdempotent | src/configuration.service.ts:36 | filling an object option twice is filling it once |
| DefaultOptions.NothingSetGivesDefaults | src/default.options.ts:6-23 | with nothing set, the options are exactly `defaultOptions` (the constants `Defaults`, `DefaultParsers` and `DefaultTransformOptions`) |
| DefaultOptions.SetValuesKept | src/configuration.service.ts:36 | a scalar option or file list the caller set is kept; an unset one takes its default value |
| DefaultOptions.ParsersFilledByKey | src/default.options.ts:10-14 | the parser registry holds the caller's extensions with the caller's parsers, plus `.json`, `.yaml` and `.yml` with the built-in parsers where the caller did not register them |
| DefaultOptions.ImplicitConversionByDefault | src/default.options.ts:19-21 | implicit conversion is on unless the caller's transformer options set it; the caller's other transformer options are kept |
| DefaultOptions.WithDefaultsIdempotent | src/configuration.service.ts:36 | applying the defaults twice is applying them once |
| FileResolution.PathsFromLocator | src/configuration.service.ts:155-167 | `getPathsFromLocator`: a function is called with the environment and its single path wrapped in a list; a literal is a one-path list |
| FileResolution.AllLocated | src/configuration.service.ts:138-139 | every locator's paths, one locator after the other |
| FileResolution.Dedup | src/configuration.service.ts:141-145 | each path kept at its first occurrence, as the `includes` check does; `DedupDistinct`, `DedupElements` and `DedupFirstSeenOrder` state it |
| FileResolution.FilesToLoad | src/configuration.service.ts:136-148 | `getAllFilesToLoad`: the de-duplicated paths of all locators; `LocatedPathsLoaded` states it |
| FileResolution.LocatorShapes | src/configuration.service.ts:155-167 | a literal path, a function's single path and a function's array of paths are normalised to a list |
| FileResolution.DedupSnoc | src/configuration.service.ts:141-145 | one more path is appended exactly when it is not listed yet |
| FileResolution.AllLocatedSnoc | src/configuration.service.ts:138-139 | one more locator adds its paths after the earlier ones |
| FileResolution.DedupDistinct | src/configuration.service.ts:141-145 | no path is listed twice |
| FileResolution.DedupElements | src/configuration.service.ts:136-148 | exactly the paths that occur are listed |
| FileResolution.FirstIndex | src/configuration.service.ts:142 | the position of a path's first occurrence |
| FileResolution.DedupFirstSeenOrder | src/configuration.service.ts:136-148 | two paths are listed in the order of their first occurrences |
| FileResolution.LocatedPathsLoaded | src/configuration.service.ts:136-148 | every path some locator yields is loaded |
| FileResolution.RepeatedPathLoadedOnce | src/configuration.service.ts:136-148 | `a.json`, a function yielding `a.json`, then `b.yaml` load `a.json` once, then `b.yaml` |
| FileResolution.LastIndexOf | src/configuration.service.ts:175 | `lastIndexOf` gives the last position of the character, or -1 when it does not occur |
| FileResolution.SliceFrom | src/configuration.service.ts:175 | `slice` from a position in range is the suffix there; a negative start counts from the end, clamped at 0 |
| FileResolution.Extension | src/configuration.service.ts:175 | `path.slice(path.lastIndexOf('.'))`; `ExtensionAfterLastDot` and `ExtensionWithoutDot` state its two cases |
| FileResolution.ExtensionAfterLastDot | src/configuration.service.ts:175 | the extension looked up is the text from the last `.` on |
| FileResolution.ExtensionWithoutDot | src/configuration.service.ts:175 | without a `.`, the extension looked up is the last character |
| FileResolution.ParserForPath | src/configuration.service.ts:174-182 | `getParserForPath`: the parser registered for the extension, else the default parser; `ParserByExtension` states it |
| FileResolution.ParserByExtension | src/configuration.service.ts:174-182 | a registered extension gets its parser; any other gets the default parser |
| FileResolution.JsonByDefault | src/default.options.ts:11 | with the default registry, `.json` files get the JSON parser |
| FileResolution.YamlByDefault | src/default.options.ts:12-13 | with the default registry, `.yaml` and `.yml` files get the YAML parser |
| FileResolution.UpperCaseExtensionFallsBack | src/configuration.service.ts:177-181 | the lookup is case-sensitive: `.JSON` gets the default parser |
| FileResolution.PathWithoutDotFallsBack | src/configuration.service.ts:175-181 | with the default registry, a path without `.` gets the default parser |
| ConfigurationService.LoadFailureLine | src/configuration.service.ts:128 | the line logged for a file that cannot be read or parsed |
| ConfigurationService.ValidationLog | src/configuration.service.ts:75-77 | the lines logged when validation reports errors, the errors joined with `,` |
| ConfigurationService.LoadedFile | src/configuration.service.ts:120-131 | a file yields its parsed tree and logs nothing exactly when it is readable and parses; otherwise it yields `{}` and logs one line naming the path |
| ConfigurationService.LoadFiles | src/configuration.service.ts:99-112 | `loadConfigurationFiles` over the resolved paths: every file's tree merged, in order, into `{}`, and the lines logged; `LoadFilesSnoc`, `FailedFileContributesNothing` and `LaterFileWins` state it |
| ConfigurationService.EnvAfterDotenv | src/configuration.service.ts:45-47 | `process.env` after the optional `loadDotEnv` |
| ConfigurationService.EnvTree | src/configuration.service.ts:88-93 | `loadEnvConfiguration`: the tree of the built-in or the caller's env parser, or its throw; `DefaultEnvTreeIsObject` states it |
| ConfigurationService.Merged | src/configuration.service.ts:49-51 | the files' tree with the environment tree merged over it; `EnvWinsOverFiles` states it |
| ConfigurationService.Run | src/configuration.service.ts:44-62 | `initialize`: dotenv, files, env tree, merge, conversion, validation, in that order, with the environment, log and configuration it leaves; `ConfigOnlyWhenValid`, `DotenvOnlyWhenEnabled`, `DotenvBeforeLocators` and `SuppressFlagIgnored` state it |
| ConfigurationService.LoadFilesSnoc | src/configuration.service.ts:103-109 | one more path merges its tree over the earlier ones and appends its log lines |
| ConfigurationService.FailedFileContributesNothing | src/configuration.service.ts:120-131 | a file that cannot be read or parsed leaves the tree unchanged and adds its log line |
| ConfigurationService.LaterFileWins | src/configuration.service.ts:103-109 | a scalar in a later file wins over anything the earlier files put at the same path |
| ConfigurationService.EnvWinsOverFiles | src/configuration.service.ts:49-51 | a scalar in the environment tree wins over the files' value at the same path |
| ConfigurationService.DefaultEnvTreeIsObject | src/configuration.service.ts:88-93 | with the built-in env parser, the environment tree is an object unless the parser throws |
| ConfigurationService.ConfigOnlyWhenValid | src/configuration.service.ts:44-82 | a configuration results exactly when the environment tree builds and validation reports no error, and it is then the converted instance; with a built tree, any failure is the fixed validation message |
| ConfigurationService.DotenvOnlyWhenEnabled | src/configuration.service.ts:45-47 | without `useDotenv`, dotenv is never consulted: any other dotenv gives the same outcome |
| ConfigurationService.LoadFilesIgnoresDotenv | src/configuration.service.ts:99-112 | loading the files does not consult dotenv |
| ConfigurationService.DotenvBeforeLocators | src/configuration.service.ts:45-50 | with `useDotenv`, the outcome is that of a run without it that starts from the environment dotenv produced, so locators and the env tree see the loaded variables |
| ConfigurationService.LoadFilesSameParsers | src/configuration.service.ts:99-112 | loading the files reads only the parser options |
| ConfigurationService.SuppressFlagIgnored | src/configuration.service.ts:99-131 | the value of `suppressFailedFileLoads` changes nothing, log lines included |
| ConfigurationService.AppendUnseen | src/configuration.service.ts:141-145 | the inner loop adds one locator's paths to the de-duplicated list |
| ConfigurationService.Service.constructor | src/configuration.service.ts:32-36 | the service starts with the caller's options completed by the defaults, the given environment, no configuration and an empty log |
| ConfigurationService.Service.LoadDotEnv | src/configuration.service.ts:187-189 | `process.env` becomes what dotenv makes of it; nothing else changes |
| ConfigurationService.Service.GetAllFilesToLoad | src/configuration.service.ts:136-148 | the nested loop yields the de-duplicated list of all located paths |
| ConfigurationService.Service.LoadAndParseFile | src/configuration.service.ts:120-131 | the method returns the file's tree and appends its log lines |
| ConfigurationService.Service.LoadConfigurationFiles | src/configuration.service.ts:99-112 | the loop merges every resolved file, in order, into `{}` and appends every failure line |
| ConfigurationService.Service.LoadEnvConfiguration | src/configuration.service.ts:88-93 | the method returns the tree of the configured env parser, or its error |
| ConfigurationService.Service.ValidateConfiguration | src/configuration.service.ts:68-82 | the method fails with the fixed message, after logging, exactly when the validator reports an error |
| ConfigurationService.Service.Initialize | src/configuration.service.ts:44-62 | the environment and the log end as the pipeline says; the configuration is stored exactly when the pipeline produces one, and otherwise the error is returned and nothing is stored |
| ConfigurationService.Create | src/configuration.service.ts:32-38 | construction succeeds exactly when the pipeline on the completed options produces a configuration, and the new service then holds it |

## Left out

- Case mapping: `toLowerCase` and `toUpperCase` are modelled on ASCII letters only. Other characters are unchanged.
- PlainData.Get: property reads see own properties only: an object's entries, an array's elements, `length` and named properties, a string's characters and `length`. Inherited properties are not modelled. A name such as `CONSTRUCTOR-0` would read `Object.prototype.constructor` in the source; `X-0=a, X__PUSH__Y=b` would descend into the array's `push` method.
- DefaultEnvParser.Assign: a write that would leave holes in an array is reported as `NotModelled`, because the model has no holes. Example: `X-0=a` then `X__5=b` writes index 5 of a one-element array. Setting an array's `length` to a string or to a non-empty array (`X-0=a` then `X__LENGTH=2`) is `NotModelled` too: the source converts the value to a number and resizes the array or throws a `RangeError`.
- Keys named `__proto__` are not modelled.
- DefaultEnvParser.Grow: an index of 2^32 - 1 or more gives the `RangeError` that `push` throws once an array would pass 2^32 - 1 elements. Below that bound a large index makes the source push millions of `{}` and run out of memory, which the model does not capture.
- EnvKey.ParseIndex: `parseInt` is exact on naturals here; rounding of numerals too long for a double is not modelled.
- Strings are sequences of Unicode scalar values, not the UTF-16 code units of JavaScript. They differ only outside the Basic Multilingual Plane. `Merge.SourceEntries` gives a top-level string source one key per scalar, where lodash gives one per code unit (`"😀"` has the keys `0` and `1` in the source, only `0` here). `FileResolution.Extension` takes the whole last character of a path without `.` where `slice(-1)` takes a lone surrogate. `PlainData.Get` counts a string's `length` and characters the same way.
- Numbers in the tree are integers. The file parsers are abstract, so floating point never arises in the model.
- The order of `process.env` is taken as given. JavaScript's `Object.keys` lists integer-like names first; that ordering is not modelled.
- JSON and YAML parsing, `readFileSync`, `dotenv.config`, `plainToClass`, `validateSync` and a caller's own env parser are function parameters (`ConfigurationService.Io`). Their own behaviour is not modelled.
- The console: only the text lines are kept. The `error` object logged with a failed file and the `console.dir` dump of the rejected configuration are not modelled.
- A locator function that throws is not modelled.
- `isGlobal`, the NestJS module wiring in `src/configuration.module.ts` and the `InjectConfig` decorator are not part of this model.
- Merge.MergeValue: an object source over an array keeps the array and stores every source key as a named property. Lodash writes the key onto the array, so a canonical index key (`0`, `1`, …) sets an element, and `length` resizes the array or throws a `RangeError`. Example: a file `{a: [1, 2]}` with the variable `A__0=x` gives `{a: ["x", 2]}` in the source. The model gives `[1, 2]` with the property `0: "x"`. Holes in arrays are not modelled, which such writes would need.
- Merge.MergeValue: an array source over an array-like destination object (a plain object whose `length` is a non-negative integer number, which a JSON or YAML file can hold) starts from `[]` in the model. Lodash first copies the destination with `copyArray`: `length` slots holding its entries `0`, `1`, … or `undefined`. Example: `{a: {length: 2, "0": "p"}}` then `{a: ["b"]}` gives `["b", undefined]` in lodash and `["b"]` here. The model has no `undefined` value to put in the copied slots. Only the files' trees can be such a destination: the env tree is merged last, as a source.
- Merge.ArrayOverNonArray: states `== src` for every non-array destination; for an array-like destination object lodash keeps the copied slots past the source's end (see the line above), so the lemma does not hold of lodash there.
- Merge.MergeValue: array-like objects, typed arrays, `arguments` objects, class instances and functions in a source are not modelled. Parsed files and the env tree hold only plain objects, arrays and scalars; an array-like destination is covered two lines above.
- DefaultEnvParser.SetFrom: the source mutates one tree in place; the model returns a new tree from each write. Every node of the env tree is created by `setValue`, so no two paths share a node and nothing is aliased.
- DefaultEnvParser.SetFrom: the model classifies a path's parts before the walk, while the source calls `parsePathPart` at each step. `parsePathPart` is pure, so the result is the same.
- ConfigurationService.Service.Initialize: the source mutates the options object given by the caller when it applies the defaults. The model keeps the completed options in the service and does not model the caller's object changing.
