# Unused-resource scanner for Flutter projects: a Dafny model

The VS Code extension has one command. It scans a Flutter project and writes three lists to an
output channel:

- **Assets.** Files under `assets/` (outside `assets/fonts/`) whose base name occurs in no Dart
  file under `lib/`.
- **Dependencies.** Packages declared under `dependencies` in `pubspec.yaml` whose name occurs in
  no Dart file. `flutter` and `flutter_test` are always skipped.
- **Dart files.** Dart files whose base name occurs in no *other* Dart file. `main.dart` is never
  reported.

A reference is a literal substring match (`String.prototype.includes`) of the key in a file's
text. The formatter then writes, for each category, a count header between separator lines and a
numbered list. It ends with a closing line when nothing was found.

The model folds the project into its inputs:

- the enumerated asset paths;
- the Dart files as `SourceFile(path, content)` pairs, the content being the text a read returns;
- the manifest as the YAML loader leaves it: `Missing`, `Unparsable`, or `Loaded` with the keys of
  its `dependencies` mapping when there is one.

Each detector is an imperative method with the loops of `src/extension.ts`. Each is proved equal to a
specification function, and the promised properties are proved as lemmas about that function.

Modules:

- `Text`: substring inclusion and base names.
- `References`: the corpus, the `Resource` pair, and the reference-set scan shared by the asset
  and dependency detectors.
- `Assets`, `DartFiles`, `Dependencies`: the three detectors.
- `Sequences`: an order-preserving filter.
- `Formatter`: the output lines.
- `Scan`: the command joining the three detectors.

In the Dart-file detector, the reference set is keyed by base name (`src/extension.ts:88-102`).
So files sharing a base name in different folders share one verdict. A mention of that name hides
both whenever the mentioning file's path differs from at least one of the two. So a mention in
either same-named file's own text is enough. `DartFiles.SharedNameMentionHidesBoth` and `DartFiles.SameBaseNameSameVerdict` state this.

The three detectors are joined with `Promise.all` (`src/extension.ts:26-40`). So a loader
exception on the manifest rejects the whole scan, and nothing is displayed.
`Scan.FindUnusedResources` models that.

## Model

| member | source | states |
|---|---|---|
| Text.IncludesIff | src/extension.ts:65 | `Includes(s, pat)` holds exactly when `pat` occurs at some position of `s`, the meaning of `dartContent.includes(...)` |
| Text.IncludesEmbedded | src/extension.ts:65 | a string made of `before + pat + after` always includes `pat` |
| Text.BaseNameIsLastSegment | src/extension.ts:57 | the base name contains no `/`, is a suffix of the path, and is preceded by `/` when it is not the whole path |
| Text.BaseNameOfJoin | src/extension.ts:73 | the base name of `dir + "/" + name` is `name` when `name` has no separator |
| Text.BaseNameOfPlain | src/extension.ts:91 | a name without a separator is its own base name |
| Text.BaseNameIdempotent | src/extension.ts:106 | taking the base name twice gives the base name |
| References.ReferencedKeysMember | src/extension.ts:59-69 | a candidate key is in the reference set exactly when some Dart file's content includes it |
| References.ReferencedKeysGrow | src/extension.ts:61-69 | the reference set only grows as more files are scanned, and holds only candidate keys |
| References.CollectReferencedKeys | src/extension.ts:59-69 | the nested file-by-key scan yields exactly the candidate keys mentioned in some file |
| Assets.ReportNotReferenced | src/extension.ts:71-77 | the reporting loop emits, in order, one entry per asset path whose base name is not in the reference set |
| Assets.NotReferencedIsUnreferenced | src/extension.ts:57-77 | reporting against the reference set built from the asset names is the asset verdict |
| Assets.FindUnreferencedAssets | src/extension.ts:51-80 | the detector returns exactly `UnreferencedAssets(assetFiles, dartFiles)`, one entry per enumerated asset whose name is unmarked, in enumeration order |
| Assets.UnreferencedAssetsSound | src/extension.ts:71-77 | every reported entry is an enumerated asset, named by its base name, whose name no Dart file mentions |
| Assets.AssetReportedIff | src/extension.ts:71-77 | `Resource(basename(p), p)` is reported exactly when `p` is enumerated and its base name is mentioned in no Dart file |
| Assets.AssetReportedOncePerFile | src/extension.ts:72-76 | an unreferenced asset is reported as many times as it is enumerated, and a referenced one never is |
| Assets.UnreferencedAssetsBound | src/extension.ts:71-79 | at most one entry per asset; all assets when none is mentioned, none when all are |
| Assets.SameBaseNameSameVerdict | src/extension.ts:59-77 | two assets with one base name are both reported or both omitted (the set is keyed by name) |
| DartFiles.MarkIfReferenced | src/extension.ts:93-101 | one pass of the inner loop adds the file's base name exactly when a file at another path includes it |
| DartFiles.CollectReferencedDartFiles | src/extension.ts:88-102 | the marking scan yields exactly the names of files that a file at another path includes |
| DartFiles.MarkedNamesMeaning | src/extension.ts:95-99 | a name is marked exactly when some file with that base name is mentioned by a file at a different path |
| DartFiles.ReportUnmarked | src/extension.ts:104-110 | the reporting loop emits, in order, the files whose name is unmarked and not `main.dart` |
| DartFiles.UnmarkedIsDeadFiles | src/extension.ts:88-110 | reporting against the fully marked set is the dead-file verdict |
| DartFiles.FindUnreferencedDartFiles | src/extension.ts:82-113 | the detector returns exactly `UnreferencedDartFiles(dartFiles)` |
| DartFiles.DeadFilesSound | src/extension.ts:104-110 | every reported entry is an enumerated file, named by its base name, not `main.dart`, and referenced by no other file |
| DartFiles.DeadFilesComplete | src/extension.ts:104-110 | a candidate is reported exactly when it is not `main.dart` and no file at another path includes its name |
| DartFiles.DartFileReportedIff | src/extension.ts:90-110 | an enumerated Dart file is reported exactly when its name is not `main.dart` and no file at another path includes it |
| DartFiles.EntryPointNeverReported | src/extension.ts:107 | no reported entry is named `main.dart`, whatever references it has |
| DartFiles.OwnContentIgnored | src/extension.ts:96 | when no other path shares the file's base name, rewriting that file's own content does not change its verdict |
| DartFiles.ReferenceSurvivesEdit | src/extension.ts:95-99 | when a file's base name is unique to its path, a reference to it comes from another file and survives rewriting the file's own text |
| DartFiles.ReferenceExistedBeforeEdit | src/extension.ts:95-99 | when a file's base name is unique to its path, a reference after rewriting the file's text was already there |
| DartFiles.SharedNameMentionHidesBoth | src/extension.ts:91-99 | if one of two same-named files mentions that name, neither file is reported |
| DartFiles.SameBaseNameSameVerdict | src/extension.ts:99-107 | two Dart files with one base name are both reported or both omitted |
| Sequences.Filter | src/extension.ts:152 | an element is in the filtered list exactly when it is in the input and passes the test; the list is no longer than the input and is a subsequence of it (multiplicities in `Sequences.FilterCounts`) |
| Sequences.FilterCounts | src/extension.ts:128-131 | every occurrence that passes the test is kept, duplicates included: the filtered count of `x` is its count in the input when `x` passes, otherwise 0 |
| Sequences.FilterCongruent | src/extension.ts:152 | filtering with two predicates that agree on the list gives the same list |
| Sequences.SubsequenceTransitive | src/extension.ts:128-152 | a subsequence of a subsequence is a subsequence |
| Dependencies.FindUnreferencedDependencies | src/extension.ts:115-153 | a missing manifest or one without a mapping yields `[]`, an unloadable one fails, otherwise the result is the unmentioned non-reserved keys; `flutter` and `flutter_test` never appear |
| Dependencies.DependencyReportedIff | src/extension.ts:127-152 | a package is reported exactly when it is declared, is not reserved and no Dart file mentions it |
| Dependencies.DependencyOrder | src/extension.ts:128-152 | the reported packages keep the `Object.keys` order of the mapping (declaration order for valid package names) |
| Formatter.DecimalShape | src/extension.ts:170 | a rendered count is a non-empty digit string starting with `0` only for zero |
| Formatter.DecimalRoundTrip | src/extension.ts:170 | reading a rendered count back gives the count |
| Formatter.DecimalInjective | src/extension.ts:174 | different counts render differently, so item numbers are distinct |
| Formatter.HeaderOfZero | src/extension.ts:178 | the literal `"0 unreferenced ..."` header of an empty category is the general header with count 0 |
| Formatter.AppendNumbered | src/extension.ts:173-175 | the `forEach` appends item `i` as `"i+1. item"`, in order |
| Formatter.AppendCategory | src/extension.ts:182-197 | one category block, both branches, appends exactly `Section(...)` |
| Formatter.SectionLayout | src/extension.ts:167-214 | a category is an optional `"\n"` line, separator, `"<count> unreferenced <category>"`, separator, then item `i` as `"i+1. item"` |
| Formatter.SectionAvoidsNothingFound | src/extension.ts:165-214 | no line of a category equals the closing line |
| Formatter.NothingFoundIffAllEmpty | src/extension.ts:215-223 | the closing line is written exactly when all three lists are empty |
| Formatter.DisplayResults | src/extension.ts:155-225 | the lines written are exactly `Report(...)`: the assets, dependencies and Dart-file categories in that order, then the closing line |
| Scan.FindUnusedResources | src/extension.ts:26-40 | the command's output is the report of the three detectors; it fails exactly on an unloadable manifest, and a missing manifest gives an empty dependency category |

## Left out

- The VS Code plumbing is not modelled. That covers command registration, the no-workspace error
  message, the progress indicator and `outputChannel.show()`.
- `vscode.workspace.findFiles` is not modelled. The globs, the `assets/fonts` exclusion and the
  10000-result cap decide which files are enumerated. The enumerated files are inputs, in the
  order given.
- `fs.readFileSync` is not modelled as I/O. It is folded into `SourceFile.content`.
- Each of the three detectors enumerates `lib/**/*.dart` and reads the files itself
  (`src/extension.ts:54`, `83-87`, `133-137`; reads at `62`, `94`, `142`). The model gives all
  three one shared corpus, so it assumes they all see the same files with the same text.
- Scan.FindUnusedResources: assumes every file read succeeds. A throwing `fs.readFileSync`
  (`src/extension.ts:62`, `94`, `123`, `142`) rejects the whole scan just as a loader exception
  does. So "fails exactly on an unloadable manifest" holds only under that assumption.
- `fs.existsSync` and `js-yaml` are replaced by the `Manifest` datatype. YAML parsing is not
  modelled. A non-mapping `dependencies` value (whose `Object.keys` would list indices) is not
  modelled either.
- `Promise.all` concurrency is not modelled. The three detectors only read data, so they run one
  after another.
- Text.BaseName: models `path.basename` as the text after the last `/`. The trailing-separator
  stripping and Windows `\` separators of Node's implementation are not modelled.
- `path.join` is not modelled. The manifest is an input.
- Formatter.DisplayResults: returns the sequence of lines passed to `appendLine` instead of writing
  to an output channel. The `br` line is the one-character string `"\n"`.
- Formatter.Decimal: counts are natural numbers. JavaScript number formatting of huge values is
  not modelled.
