# KarmaTestAdapter: reporter version cache and qualified test names

A Dafny model of two pieces of the Karma test adapter for Visual Studio:

- **`KarmaVsReporter`** (module `Commands`, `karma_vs_reporter.dfy`): the object that
  knows where the `karma-vs-reporter` npm package lives under a project directory
  (`node_modules\karma-vs-reporter\karma-vs-reporter` and its `package.json`),
  whether it is installed, and which version it is. The version is cached and
  re-read from `package.json` only when the cache is empty or the file's
  last-write time differs from the recorded `Timestamp`. The class keeps the
  source's fields (`Directory`, `Reporter`, `ConfigFile` never change after
  construction; `Timestamp` and the cached version are updated in place). The
  `Version` getter and the private `GetVersion` helper are methods proved equal to
  the step functions `VersionStep` and `GetVersionStep`. The lemmas about those
  functions state the cache's behaviour over one call and over consecutive calls.
- **`Test.FullyQualifiedName`** (module `TestResults`, `test_results.dfy`): the
  name a test is known by in the test platform. It is the parent suite's qualified
  name, a `.`, the test's name with every `.` replaced by `-`, `#`, and the
  test's `Index`. The main result is that the name can be parsed back into the
  parent's name, the sanitised name and the index (`QualifiedNameRoundTrip`). So
  two tests get the same qualified name exactly when those three agree, and tests
  with the same name under one suite are told apart by their index.

The parts of the .NET library the code relies on are written out in module
`Text` (`text.dfy`): `String.Replace(char, char)`, the decimal rendering of an
`int?` by `string.Format` (null becomes the empty string), and
`String.IsNullOrWhiteSpace`. `Text` also holds `LastIndexOf`, a helper of the
model's own: the code does not call it, and `ParseQualifiedName` uses it to read
a qualified name back into its parts. Module `Commands` also writes out
`Path.Combine` as the .NET Framework implements it. It inserts `\` unless the
left part already ends in `\`, `/` or `:`. It throws `ArgumentException` when a
part holds `"`, `<`, `>`, `|` or a control character.

Everything the reporter asks of the machine is given to each call as a `Host`
value:
- which files exist;
- a file's last-write time, an integer standing for a `DateTime`;
- what `package.json` holds: unreadable, malformed JSON, no `version`
  property, a non-string `version`, or a string;
- which strings the `SemanticVersion` constructor accepts.

Exceptions are results: `Result<…, Exception>`.

### Behaviour worth knowing

- A malformed `package.json` makes `JObject.Parse` throw, and the exception
  leaves the getter (`KarmaVsReporter.cs:43`). By then the new `Timestamp` has
  already been recorded (`:42`) and the cached version is left as it was. When a
  version was cached before, the next call therefore serves that old version
  without reading the file (`StaleVersionAfterFailedRead`). When the cache was
  empty, the next call reads the file again.
- A missing or non-string `version` property leaves the cache null (`:51`), and
  a null cache forces a re-read on every call, even when the write time is
  unchanged (`:40`; `NullVersionIsReadAgain`).
- When the package is missing, the getter clears the cached version but keeps
  the recorded `Timestamp` (`:55-58`; `AbsentClearsVersionOnly`).

## Model

| member | source | states |
|---|---|---|
| `Commands.KarmaVsReporter.New` | KarmaTestAdapter/Commands/KarmaVsReporter.cs:14-25 | a null or blank directory throws ArgumentNullException("directory"), one with characters Path.Combine refuses throws ArgumentException, and only those fail; otherwise a fresh reporter with `Directory` the argument, the two fixed paths, `Timestamp` the config file's write time exactly when both files exist (else null), and an empty cache |
| `Commands.KarmaVsReporter.constructor` | KarmaTestAdapter/Commands/KarmaVsReporter.cs:21-24 | the field values after construction from an accepted directory |
| `Commands.PathLayout` | KarmaTestAdapter/Commands/KarmaVsReporter.cs:22-23 | the package directory is `Directory`, a `\` unless `Directory` already ends in a separator, then `node_modules\karma-vs-reporter`; the reporter is `karma-vs-reporter` and the config file `package.json` in it, and the two paths differ |
| `Commands.CombinePaths` | KarmaTestAdapter/Commands/KarmaVsReporter.cs:22-23 | `Path.Combine` of two parts: the result ends with the second part's last character, and for a non-empty, non-rooted second part and a non-empty first part the result is one character longer than the two parts together when the first does not end in a separator, and exactly as long when it does |
| `Commands.PackageFile` | KarmaTestAdapter/Commands/KarmaVsReporter.cs:22-23 | for a non-empty directory a relative file name of the package is the package directory, `\`, then the name |
| `Commands.ReporterPath` | KarmaTestAdapter/Commands/KarmaVsReporter.cs:22 | for a non-empty directory the reporter is the package directory, `\`, then `karma-vs-reporter` |
| `Commands.ConfigFilePath` | KarmaTestAdapter/Commands/KarmaVsReporter.cs:23 | for a non-empty directory the config file is the package directory, `\`, then `package.json` |
| `Commands.KarmaVsReporter.Exists` | KarmaTestAdapter/Commands/KarmaVsReporter.cs:63 | true exactly when both the reporter script and package.json exist |
| `Commands.KarmaVsReporter.GetTimestamp` | KarmaTestAdapter/Commands/KarmaVsReporter.cs:65-68 | non-null exactly when `Exists`, and then the config file's last-write time |
| `Commands.KarmaVsReporter.ReadVersion` | KarmaTestAdapter/Commands/KarmaVsReporter.cs:43-52 | reading package.json throws exactly when the file cannot be read or parsed or its string version is not a semantic version; it yields null exactly when `version` is missing or not a string; a version it yields is the parse of the string property |
| `Commands.KarmaVsReporter.Version` | KarmaTestAdapter/Commands/KarmaVsReporter.cs:33-61 | the getter's result and the new `Timestamp` and cached version are those of `VersionStep` from the old state, and afterwards a cached version always comes with a recorded timestamp (`Cache.Consistent`), whatever the old state |
| `Commands.KarmaVsReporter.GetVersion` | KarmaTestAdapter/Commands/KarmaVsReporter.cs:70-90 | the helper's result and new `Timestamp` are those of `GetVersionStep`; it changes nothing else and keeps `Cache.Consistent` |
| `Commands.KarmaVsReporter.AbsentClearsVersionOnly` | KarmaTestAdapter/Commands/KarmaVsReporter.cs:55-59 | without the package the getter yields null and empties the cache but leaves `Timestamp` unchanged |
| `Commands.KarmaVsReporter.CachedHit` | KarmaTestAdapter/Commands/KarmaVsReporter.cs:37-40 | with a cached version and an unchanged write time the getter yields the cached version and the state is unchanged |
| `Commands.KarmaVsReporter.CachedHitReadsNothing` | KarmaTestAdapter/Commands/KarmaVsReporter.cs:39-43 | on such a hit the outcome does not depend on what package.json holds: no read takes place |
| `Commands.KarmaVsReporter.Refreshes` | KarmaTestAdapter/Commands/KarmaVsReporter.cs:40-52 | with an empty cache or a changed write time the getter records the new write time and yields what package.json holds; the cache takes that value, or keeps the old one when reading threw |
| `Commands.KarmaVsReporter.NullVersionIsReadAgain` | KarmaTestAdapter/Commands/KarmaVsReporter.cs:40-51 | a null result leaves the cache empty, so the next call reads package.json again although its write time is unchanged |
| `Commands.KarmaVsReporter.RepeatedReadIsStable` | KarmaTestAdapter/Commands/KarmaVsReporter.cs:37-59 | after a call that yields a version, a second call with nothing changed yields the same and leaves the same state |
| `Commands.KarmaVsReporter.StaleVersionAfterFailedRead` | KarmaTestAdapter/Commands/KarmaVsReporter.cs:40-48 | when a changed package.json cannot be read the getter throws after recording the new write time, and the next call serves the old cached version |
| `Commands.KarmaVsReporter.StepsKeepConsistent` | KarmaTestAdapter/Commands/KarmaVsReporter.cs:37-90 | a non-null cached version always comes with a recorded timestamp: the constructor establishes this and every getter read and `GetVersion` call keeps it |
| `Commands.KarmaVsReporter.AppearingPackageIsRead` | KarmaTestAdapter/Commands/KarmaVsReporter.cs:37-58 | after a call that found no package, the first call that finds one reads package.json |
| `Commands.KarmaVsReporter.GetVersionNullUnlessReread` | KarmaTestAdapter/Commands/KarmaVsReporter.cs:70-90 | `GetVersion` yields null and keeps `Timestamp` when the package is absent or the previous version is non-null with an unchanged write time |
| `Commands.KarmaVsReporter.GetVersionRereadsLikeGetter` | KarmaTestAdapter/Commands/KarmaVsReporter.cs:72-86 | `GetVersion` records the same new `Timestamp` as the getter and, when it re-reads, yields what the getter yields |
| `Commands.KarmaVsReporter.GetVersionDiffersOnHit` | KarmaTestAdapter/Commands/KarmaVsReporter.cs:75-89 | where the getter returns its cached version, `GetVersion` given that version returns null |
| `Text.Replace` | KarmaTestAdapter/TestResults/Test.cs:29 | same length; each character is replaced when it is the given one and kept otherwise; the replaced character no longer occurs |
| `Text.FormatNullableInt` | KarmaTestAdapter/TestResults/Test.cs:29 | `string.Format` of an `int?` is empty exactly when the value is null, and otherwise holds only `-` and decimal digits |
| `Text.FormatNullableIntRoundTrip` | KarmaTestAdapter/TestResults/Test.cs:29 | the text `string.Format` writes for an `int?` (empty for null) parses back to the same value |
| `TestResults.SanitizedName` | KarmaTestAdapter/TestResults/Test.cs:29 | the sanitised name has the name's length and contains no `.` |
| `TestResults.Segment` | KarmaTestAdapter/TestResults/Test.cs:29 | the test's own segment holds no `.`, starts with the sanitised name followed by `#`, and ends in `#` exactly when the index is null |
| `TestResults.FullyQualifiedName` | KarmaTestAdapter/TestResults/Test.cs:24-36 | the qualified name ends with the test's own segment and contains a `.` exactly when the test has a parent suite; what it determines is stated by `QualifiedNameRoundTrip`, `QualifiedNameInjective`, `TopLevelName` and `NestedName` |
| `TestResults.QualifiedNameRoundTrip` | KarmaTestAdapter/TestResults/Test.cs:24-36 | splitting the qualified name at its last `.` and its last `#` gives back the parent's name (or none), the sanitised name and the index |
| `TestResults.QualifiedNameInjective` | KarmaTestAdapter/TestResults/Test.cs:28-33 | two tests share a qualified name exactly when their parents, sanitised names and indexes agree |
| `TestResults.IndexDisambiguates` | KarmaTestAdapter/TestResults/Test.cs:28-29 | tests with the same name and parent get the same qualified name exactly when their indexes are equal |
| `TestResults.TopLevelName` | KarmaTestAdapter/TestResults/Test.cs:29-30 | without a parent suite the qualified name is the sanitised name, `#` and the index, and it holds no `.` |
| `TestResults.NestedName` | KarmaTestAdapter/TestResults/Test.cs:30-33 | with a parent suite the qualified name is the parent's name, `.`, then the segment |
| `TestResults.NullIndexEndsWithHash` | KarmaTestAdapter/TestResults/Test.cs:29 | a null index leaves a bare `#` at the end |
| `TestResults.QualifiedNameIgnoresAttributes` | KarmaTestAdapter/TestResults/Test.cs:19-36 | the qualified name depends only on the parent, the name and the index, not on framework, line or column |
| `TestResults.SanitizingCollides` | KarmaTestAdapter/TestResults/Test.cs:28-29 | tests named `a.b` and `a-b` under one suite with the same index get the same qualified name: the index tells apart identical names only |
| `TestResults.ExampleName` | KarmaTestAdapterTests/Karma/KarmaSpec.cs:20-22 | the spec `Spec 2` in suites `suite1.suite2` with index 0 is named `suite1.suite2.Spec 2#0` |

## Left out

- Commands.CombinePaths: its contract gives the result's length and last character, not the whole string. The whole join is stated for the paths the reporter builds, by `PathLayout`, `ReporterPath` and `ConfigFilePath`.
- File-system access, JSON parsing and semantic-version parsing are answers of the `Host` value given to each call. One call sees one state of the disk, so a file that vanishes between the existence check and the read is not modelled.
- `DateTime` is an integer. Time zones and the value `File.GetLastWriteTime` gives for a missing file play no part, because the code reads the time only when the file exists.
- `SemanticVersion` is an opaque record. Which strings it accepts is the host's `parseVersion`.
- The `Suite` class is not part of this model. A test's parent is given by the parent's own qualified name.
- The XML attribute lookups, `ToInt`, and the `TestItem` and `Item` base classes are not part of this model. A test carries the values its getters return.
- A null test `Name`, which would make `Name.Replace` throw, is not modelled: the name is always a string.
- `TestResults.Test`: `Index`, `Line` and `Column` are unbounded integers rather than 32-bit ones. `string.Format` writes a negative index with the current culture's negative sign; the model fixes that sign at `-`.
- KarmaTestAdapter/Helpers/VSExtensions.cs is not part of this model. It enumerates Visual Studio solutions and project items through COM.
- Building the suite/test tree from the runner's result stream and merging per-browser results are not part of this model. No code for them is among the modelled files.
