# werf-argo-renderer, modelled in Dafny

werf-argo-renderer renders one "app of apps" Helm chart and reads the Argo CD
`Application` documents it prints. For each Application it:

- clones the repository the Application points at (once per URL and revision);
- renders that repository's werf chart with the `WERF_SET_*` and `WERF_VALUES_<n>` options from the plugin block;
- writes the manifest under `outputDir/<env>/<instance>/<name>.yaml`.

This project models the logic of that pipeline and proves what it promises:

- **Filter** (`internal/pkg/argo/filter.go`):
  - the dot-path lookup over a decoded YAML tree;
  - the `path==value` / `path!=value` filter parser;
  - one criterion, and a list of criteria joined by AND.
- **WerfEnv**: the `WERF_SET_*` / `WERF_VALUES_<n>` extraction that the parser and the app share.
  - Setters: last write wins, and the empty key is configurable.
  - Values files: ascending by integer index. The sort is an in-place insertion sort on an array and is specified only up to the order of equal indices.
- **Parser** (`internal/pkg/argo/parser.go`):
  - the classification of documents as Applications;
  - the filter applied to them;
  - the resolution of a raw Application into the canonical one: identity conflicts, repository and path fall-backs;
  - the abort-on-first-error stream loop.
- **Helm** (`internal/pkg/helm/helm.go`): the `helm template` argument vector.
- **App** (`internal/app/app.go`):
  - `processPluginEnv`, `convertHTTPtoSSH`;
  - the `appState` clone cache, as a class with `clonedRepos` and `cloneCounter`;
  - the output location and `processApplication`;
  - `Run`'s skip-and-continue loop.
- **Renderer** (`cmd/renderer/main.go`): the earlier iteration.
  - Its `processPluginEnv`, `processApplication` and main loop are those of app.go, and are modelled once, in App.
  - Its `convertHTTPtoSSH` lacks the `git@` shortcut and gets its own model. With the reference URL parser, the proof shows it is not idempotent.
- **Support modules**:
  - Strings: the `strings` / `strconv` subset used;
  - Yaml: the `yaml.Node` record;
  - Url: a reference subset of `net/url.Parse`, used only for the URL test vectors;
  - Paths: `filepath.Join` over segment lists.

External effects are parameters:

- the URL parser is a function `string -> Result<Url, UrlError>`;
- `git clone`, `helm template`, `MkdirAll` and `WriteFile` are functions that say whether the call succeeds (and, for helm, what it prints);
- Go's map iteration order and the order `sort.Slice` leaves equal indices in appear as ghost outputs of the methods that depend on them.

## Model

| member | source | states |
|---|---|---|
| Filter.GetNodeValueByPath | internal/pkg/argo/filter.go:102-147 | The segment loop and the pair loop compute `Lookup`. That is ("", false) for no node, for an empty document, for a non-mapping node at any segment or for a missing key; otherwise it is the reached node's value with found = true. |
| Filter.ValueAfterKeyFirst | internal/pkg/argo/filter.go:125-139 | In a flat key/value list, the value after the first key equal to the segment is the one taken. |
| Filter.ValueAfterKeyFound | internal/pkg/argo/filter.go:125-139 | A found value sits right after a matching key at an even offset, and no earlier key matches. |
| Filter.TrailingKeyIgnored | internal/pkg/argo/filter.go:126-129 | A trailing key with no value after it never matches. |
| Filter.NestedDocumentStops | internal/pkg/argo/filter.go:111-121 | Only the root document is unwrapped; a document node met deeper stops the walk. |
| Filter.WalkAppend | internal/pkg/argo/filter.go:118-144 | Walking `a + b` is walking `a`, then `b` from where `a` ended. |
| Filter.ParseFilter | internal/pkg/argo/filter.go:37-65 | No criterion and no error exactly for the empty string. An error exactly when neither `!=` nor `==` occurs. |
| Filter.ParseFilterOperator | internal/pkg/argo/filter.go:44-50 | `!=` anywhere wins over `==`; `==` is taken only when there is no `!=`. |
| Filter.ParseFilterParts | internal/pkg/argo/filter.go:52-63 | Path and value are the trimmed text before and after the first occurrence of the operator. |
| Filter.ParseFilterOf | internal/pkg/argo/filter.go:52-63 | A path without `!` or `=`, then an operator, then a value (for `==`, one without `!=`), parses to the trimmed parts. |
| Filter.ParseFormatRoundTrip | internal/pkg/argo/filter.go:37-65 | Printing a criterion as `path op value` and parsing it gives the criterion back, when path and value are trimmed, the path holds no `!` or `=`, and an `==` value holds no `!=`. |
| Filter.FormatNotEqualsInValue | internal/pkg/argo/filter.go:44-52 | Without that last condition the round trip fails: `path==v1!=v2` (no `!` in path or v1) parses as the `!=` criterion on `path==v1`, since `!=` wins wherever it occurs. |
| Filter.ParseFilterRejectsSingleCharOperators | internal/pkg/argo/filter_test.go:42-58 | `key=value` and `key~=value` are both rejected. |
| Filter.ParseFilterEmptyValue | internal/pkg/argo/filter_test.go:35-53 | `key==` gives path `key` and the empty value. |
| Filter.ParseFilterPadded | internal/pkg/argo/filter.go:57-58 | Whitespace around path, operator and value is dropped, for a trimmed path without `!` or `=` and a trimmed value (without `!` under `==`). |
| Filter.NoTwoCharOperator | internal/pkg/argo/filter.go:44-50 | A text with no `!=` and no `==` pair has neither operator. |
| Filter.ParseFilters | internal/pkg/argo/filter.go:21-34 | The loop computes `ParseAll`: empty strings are skipped, order is kept, and the first error aborts. |
| Filter.ParseAllOk | internal/pkg/argo/filter.go:21-34 | ParseFilters succeeds if and only if every non-empty string parses. |
| Filter.ParseAllContents | internal/pkg/argo/filter.go:23-31 | On success, the k-th criterion is the parse of the k-th non-empty string. |
| Filter.ParseAllErr | internal/pkg/argo/filter.go:27-30 | On failure, the error is that of the first non-empty string that does not parse. |
| Filter.Match | internal/pkg/argo/filter.go:68-86 | No node never matches. On a node, `==` holds exactly when the path reaches a field with the value, `!=` exactly when it does not, and any other operator matches. MatchEquals and MatchNotEqualsIsComplement restate the two cases on their own. |
| Filter.MatchEquals | internal/pkg/argo/filter.go:77-80 | `==` holds if and only if the path is found and its value is equal, so a missing field never equals anything, `""` included. |
| Filter.MatchNotEqualsIsComplement | internal/pkg/argo/filter.go:77-83 | On a node, `!=` is exactly the negation of `==`. |
| Filter.MatchMissingField | internal/pkg/argo/filter_test.go:119-133 | A missing field fails `==` and passes `!=`. |
| Filter.MatchAll | internal/pkg/argo/filter.go:92-99 | True if and only if every criterion matches (the empty list passes). Otherwise false, and `failed` is the first criterion in list order that fails. |
| WerfEnv.SettersKeys | internal/app/app.go:176-182 | A key is set if and only if some `WERF_SET_*` entry has `=` and that key before it. |
| WerfEnv.SettersLastWins | internal/pkg/argo/parser.go:144-159 | A key's value comes from the last entry that sets it. |
| WerfEnv.PrefixesExclusive | internal/app/app.go:176-183 | A `WERF_SET_` name never also has the `WERF_VALUES_` prefix, so the else-if never hides an entry. |
| WerfEnv.IndexedSound | internal/pkg/argo/parser.go:211-221 | Every indexed file comes from a `WERF_VALUES_<n>` entry whose suffix parses as the integer `n`. |
| WerfEnv.IndexedComplete | internal/pkg/argo/parser.go:211-221 | Every `WERF_VALUES_<n>` entry whose suffix parses as an integer gives an indexed file. |
| WerfEnv.FilePaths | internal/pkg/argo/parser.go:227-230 | The paths, one per indexed file, in the same order. |
| WerfEnv.SortedArrangementUnique | internal/pkg/argo/parser.go:223-225 | When equal indices carry equal paths, there is only one sorted permutation. |
| WerfEnv.ValuesFilesDetermined | internal/pkg/argo/parser.go:204-233 | Under that condition the values-file list is fully determined. |
| WerfEnv.DuplicateIndexEitherOrder | internal/pkg/argo/parser.go:223-225 | With a duplicated index, both orders are valid outcomes of the unstable sort. |
| WerfEnv.SortByIndex | internal/pkg/argo/parser.go:223-225 | The array ends sorted by index and is a permutation of its old contents. |
| WerfEnv.InsertAt | internal/pkg/argo/parser.go:223-225 | One insertion step extends the sorted prefix by one element and keeps the multiset of elements. |
| WerfEnv.SortedPaths | internal/pkg/argo/parser.go:223-232 | The result is the paths of a sorted permutation of the indexed files. |
| Parser.ExtractKeyValueFromWerfSet | internal/pkg/argo/parser.go:235-241 | With an `=`: the text is the key, `=` and the value, and the key holds no `=`. Without one: ("", ""). |
| Parser.ExtractKeyValueRoundTrip | internal/pkg/argo/parser.go:235-241 | A key without `=`, then `=value`, gives back the key and value. |
| Parser.ParserSetterAgrees | internal/pkg/argo/parser.go:145-148 | The parser keeps an entry exactly when it has the SET prefix and a non-empty key; it then sets that key and value. |
| Parser.PluginIdentityLast | internal/pkg/argo/parser.go:149-154 | The plugin identity is the value of the last kept `WERF_SET_INSTANCE` / `WERF_SET_ENV` entry. |
| Parser.PluginIdentityNone | internal/pkg/argo/parser.go:140-154 | Without a kept entry of that name, the plugin identity is empty. |
| Parser.Reconcile | internal/pkg/argo/parser.go:162-178 | Error if and only if both are set and they differ; the error names the field and both values. Otherwise the label wins when set. |
| Parser.ApplicationOfErrors | internal/pkg/argo/parser.go:162-187 | Invalid if and only if there is an instance conflict, an env conflict or no repository. Instance is checked first, then env, then the repository. |
| Parser.ApplicationOfFields | internal/pkg/argo/parser.go:123-199 | Name and revision are copied. Identity: the label, else the plugin value. Repository: rawRepository when non-empty, else spec.source.repoURL. Path: rawPath verbatim when present, else spec.source.path, else ".". Setters skip the empty key. Values files are kept. |
| Parser.ApplicationOfErrorIgnoresFiles | internal/pkg/argo/parser.go:142-187 | Whether an Application is valid does not depend on its values files. |
| Parser.NoPluginBlock | internal/pkg/argo/parser.go:123-128 | Without a plugin block, Setters and ValuesFiles are empty and identities come from labels. |
| Parser.InstanceConflict | internal/pkg/argo/parser_test.go:299-349 | A label and a different plugin instance give the conflict error. |
| Parser.InstanceAgreement | internal/pkg/argo/parser_test.go:299-349 | A label equal to the plugin instance is accepted, and the setter is still recorded. |
| Parser.ExtractAndSortValuesFiles | internal/pkg/argo/parser.go:204-233 | The result is the paths of a sorted permutation of the integer-indexed `WERF_VALUES_` entries. |
| Parser.NewApplicationFromRaw | internal/pkg/argo/parser.go:122-202 | The result is `ApplicationOf` the raw record with values files that the env yields; whether it fails, and with which error, does not depend on those files. |
| Parser.ScanPluginEnv | internal/pkg/argo/parser.go:144-159 | The env loop builds the non-empty-key setter map in list order and records the last WERF_SET_INSTANCE and WERF_SET_ENV values. |
| Parser.ResolvedFrom | internal/pkg/argo/parser.go:112-116 | A successful resolution with env-derived files is a resolved Application. |
| Parser.ResolvedAllAppend | internal/pkg/argo/parser.go:116 | Appending a resolved Application keeps the list resolved pairwise. |
| Parser.ParseApplications | internal/pkg/argo/parser.go:53-120 | A bad filter fails first. Otherwise: the first malformed, undecodable or invalid selected document aborts with its error. Otherwise: the result resolves the selected documents one to one, in stream order. |
| Parser.SelectionOk | internal/pkg/argo/parser.go:65-117 | The selection succeeds if and only if no item raises an error. |
| Parser.SelectionChosen | internal/pkg/argo/parser.go:76-104 | On success, the selection is the classified documents that pass the filter, in order. |
| Parser.SelectionFirstError | internal/pkg/argo/parser.go:71-115 | On failure, the error is that of the first item that raises one. |
| Parser.NonApplicationSkipped | internal/pkg/argo/parser.go:76-81 | A document that is not an argoproj.io/v1alpha1 Application never appears and never fails the call. |
| Parser.EmptyFilterSelectsAll | internal/pkg/argo/parser.go:57-60 | The empty filter parses to no criterion, and every classified document is selected. |
| Parser.EqualsAndNotEqualsPartition | internal/pkg/argo/parser_test.go:46-93 | For any path and value, the `==` and `!=` selections together count exactly the unfiltered selection. |
| Helm.TemplateArgs | internal/pkg/helm/helm.go:20-31 | `keys` enumerates the setter map (each key once), and the arguments are `ArgsFor` that order: the head and the values pairs in list order, then two arguments per setter. |
| Helm.ValuesLoop | internal/pkg/helm/helm.go:25-27 | The values loop yields `ValuesArgs` of the file list. |
| Helm.SetLoop | internal/pkg/helm/helm.go:28-31 | The map loop visits every key exactly once and yields `SetArgs` in that order, two arguments per key. |
| Helm.ValuesArgsLayout | internal/pkg/helm/helm.go:25-27 | Each values file gives `--values, f`, in list order. |
| Helm.SetArgsLayout | internal/pkg/helm/helm.go:28-31 | Each visited setter gives `--set, key=value`. |
| Helm.EnumerationLength | internal/pkg/helm/helm.go:28-31 | A map enumeration has as many keys as the map. |
| Helm.ArgsLength | internal/pkg/helm/helm.go:20-31 | The length is 2, plus 1 for a release name, plus 2 per values file, plus 2 per setter. |
| Helm.ArgsHead | internal/pkg/helm/helm.go:20-24 | The vector starts with `template`, then the release name if non-empty, then the chart path. |
| Helm.ArgsValues | internal/pkg/helm/helm.go:25-27 | The i-th values file sits right after its `--values`, before any `--set`. |
| Helm.ArgsSets | internal/pkg/helm/helm.go:28-31 | The j-th visited setter sits after all values files, as `--set key=value`. |
| Helm.EachSetterOnce | internal/pkg/helm/helm.go:28-31 | Every setter is visited exactly once. |
| App.ProcessPluginEnv | internal/app/app.go:172-201 | Setters are those of the SET entries with the empty key allowed. Values files are the paths of a sorted permutation of the integer-indexed VALUES entries. |
| App.EmptyKeyKept | internal/app/app.go:176-182 | Unlike the parser, `=v` sets the empty key. |
| App.SetEntry | internal/app/app.go:177-179 | `key=value` with no `=` in the key sets that key to that value. |
| App.ValuesEntry | internal/app/app.go:183-190 | `WERF_VALUES_<n>` is the file at index n. |
| App.PluginEnvExampleSetters | internal/app/app_test.go:10-27 | The test's env yields exactly the one well-formed setter. |
| App.PluginEnvExampleIndexed | internal/app/app_test.go:12-19 | The test's env yields the files indexed 10, 1 and 2, in env order. |
| App.ArrangedExample | internal/app/app.go:194-199 | Files indexed 10, 1 and 2 can only be arranged as 1, 2, 10. |
| App.PluginEnvExampleFiles | internal/app/app_test.go:29-33 | The test's values files are exactly `values1, values2, values10`, in that order. |
| App.ConvertHttpToSsh | internal/app/app.go:203-220 | An error exactly when the input does not start with `git@` and does not parse, carrying the parse error. A success is the input itself or a `git@` URL. The cases are pinned down by ConvertKeepsSsh and ConvertCases. |
| App.ConvertKeepsSsh | internal/app/app.go:204-206 | Input starting with `git@` comes back unchanged, whatever the URL parser says. |
| App.ConvertCases | internal/app/app.go:208-219 | Otherwise: a parse error gives an error, a non-http(s) scheme gives the input back, and http(s) gives a `git@` URL. |
| App.ConvertStripsOneSlash | internal/app/app.go:217-219 | An http(s) path `/rest` gives `git@host:rest`; only one slash goes. |
| App.ConvertIdempotent | internal/app/app.go:203-220 | Converting a successful result again gives the same result. |
| App.ConvertReferenceHttp | internal/app/app_test.go:44-61 | With the reference parser, `http(s)://host/path` gives `git@host:path`, for a host without `/` or `@` and no `?` or `#` in host or path. |
| App.ConvertReferenceMissingScheme | internal/app/app_test.go:62-67 | With the reference parser, `://...` is an error. |
| App.CacheKeyInjective | internal/app/app.go:113 | `url@rev` keys differ for different pairs when revisions hold no `@`. |
| App.CacheKeyCollision | internal/app/app.go:113 | Without that condition, two pairs share a key. |
| App.CloneDirInjective | internal/app/app.go:117 | `tempDir/clone-n` directories differ for different n. |
| App.CacheHitSkipsClone | internal/app/app.go:113-127 | A hit returns the cached path, changes nothing and does not clone. |
| App.CheckoutTwice | internal/app/app.go:113-127 | After a successful checkout, the same pair is a hit on the same directory. After a failed one, it tries a new directory and a new number. |
| App.CheckoutGrows | internal/app/app.go:113-127 | Keys only grow and entries stay. The counter rises by at most one. The key is recorded if and only if a path is returned. |
| App.OutputFileLayout | internal/app/app.go:143-158 | The manifest is `outputDir[/env][/instance]/<name>.yaml`; labels env=dev, instance=inf1 give `outputDir/dev/inf1/<name>.yaml`. |
| App.EnvAndInstanceShareLevel | internal/app/app.go:143-152 | An env-only label and an instance-only label with the same value give the same directory. |
| App.PrepareIgnoresSpec | internal/app/app.go:97-106 | A missing rawRepository is an error with no fallback to the spec, and a missing rawPath means ".". |
| App.AbsoluteValuesFiles | internal/app/app.go:131-135 | One absolute file per values file. |
| App.AbsolutePaths | internal/app/app.go:131-135 | The loop fills the array with every values file joined onto the service directory, position by position. |
| App.RenderOptionsLayout | internal/app/app.go:129-137 | The release is the Application's name. The chart is `repoPath/chartSubPath/.helm`. Each values file is `repoPath/chartSubPath/<file>`, in order. |
| App.FinishSucceeds | internal/app/app.go:137-162 | No error if and only if helm renders, the directory is made and the manifest file is written. |
| App.ProcessStepCache | internal/app/app.go:97-127 | An Application failing its checks leaves the cache alone. Otherwise the cache only grows by at most one number. |
| App.RenderAndWrite | internal/app/app.go:129-162 | Computes `Finish`: render, mkdir, write, with the error of the first step that fails. |
| App.AppState.constructor | internal/app/app.go:49-53 | A fresh state with an empty cache and counter 0. |
| App.AppState.DistinctDirectories | internal/app/app.go:113-127 | Two cached keys never share a clone directory. |
| App.AppState.CheckoutRepo | internal/app/app.go:113-127 | The new path, map and counter are `CheckoutStep` of the old ones, and the cache invariant is kept. |
| App.AppState.ProcessApplication | internal/app/app.go:85-165 | The error and new cache are `ProcessStep` of the old cache, with values files that the plugin env yields. The cache invariant is kept. |
| App.FailuresStep | internal/app/app.go:55-60 | Each failed Application adds one (name, error) entry to the log. |
| App.RunSteps | internal/app/app.go:55-60 | The loop as a fold: Applications are processed in order, each failure is recorded and the next one goes on with the cache the previous one left. There is one outcome per Application, and the cache only grows, by at most one clone per Application. |
| App.RunStepsPrefix | internal/app/app.go:55-60 | Stopping after the first m Applications gives the first m outcomes of the whole run, so a later failure never changes an earlier outcome. |
| App.RunStepsAt | internal/app/app.go:55-60 | The i-th outcome is the processing of the i-th Application from the cache the first i left. |
| App.FilesFitAt | internal/app/app.go:92-93 | The i-th values-file list is one the plugin env of the i-th Application yields. |
| App.ProcessNext | internal/app/app.go:55-60 | One more Application processed: its outcome, log entry and new cache extend the fold by that Application, and the cache invariant is kept. |
| App.ProcessAll | internal/app/app.go:55-60 | Outcomes and the final cache are `RunSteps` of the Applications from the starting cache, with values files each env yields. The log is the failures in order. The cache only grows, by at most one clone per Application. |
| App.Run | internal/app/app.go:49-60 | A fresh state, then the loop with convertHTTPtoSSH: outcomes and final cache are `RunSteps` from the empty cache and counter 0. |
| Renderer.ConvertHttpToSsh | cmd/renderer/main.go:206-217 | An error exactly when the input does not parse, carrying the parse error. A success is the input itself or a `git@` URL. AgreesWithApp ties it to app.go's converter. |
| Renderer.AgreesWithApp | cmd/renderer/main.go:206-217 | On input not starting with `git@`, both iterations convert alike. |
| Renderer.RejectsScpLike | cmd/renderer/main.go:206-210 | With the reference parser, main.go rejects `git@host:path` for a host without `/`, `:`, `?` or `#` (colon in the first segment), while app.go keeps it. |
| Renderer.NotIdempotent | cmd/renderer/main.go:206-217 | main.go's converted form of `http(s)://host/path` (host without `/`, `@` or `:`, no `?` or `#`) does not convert again. |
| Renderer.RunMain | cmd/renderer/main.go:162-168 | A fresh state, then main's loop with main.go's converter: outcomes and final cache are `RunSteps` from the empty cache and counter 0, and the log is the failures in order. |
| Url.ParseHierarchical | internal/app/app.go:208 | For a lower-case scheme, a host without `/` or `@`, and no `?` or `#` in host or path, the reference parser reads `scheme://host/path` as that scheme, host and `/path`. |
| Url.ParseMissingScheme | internal/app/app.go:208-211 | The reference parser rejects text starting with `:`. |
| Url.ParseScpLike | cmd/renderer/main.go:207-210 | The reference parser rejects `user@host:path` for a host without `/`, `:`, `?` or `#` (colon in the first path segment). |
| Strings.Cut | internal/pkg/argo/filter.go:52 | SplitN(s, sep, 2): None exactly when sep is absent; otherwise the text is before + sep + after, with the first occurrence taken. |
| Strings.TrimSpaceSpec | internal/pkg/argo/filter.go:57-58 | TrimSpace drops leading and trailing whitespace and leaves no whitespace at either end. |
| Strings.AtoiNatToString | internal/pkg/argo/parser.go:214 | Atoi reads back the decimal text of every natural number. |
| Paths.JoinTwice | internal/app/app.go:129-130 | Joining in two steps is joining `x/y`. |
| Paths.JoinIsCleanConcat | internal/app/app.go:129-135 | Join of a clean base is the cleaned text `base/rel`. |

## Left out

- YAML decoding (`Decoder.Decode`, `node.Decode`): the stream is given as already-decoded nodes. Each is a tree with the `rawApplication` record `node.Decode` would give (or its failure), or a malformed-document marker.
- `net/url.Parse`: a parameter. `Url.ParseReference` is a reference subset covering scheme, authority and path. Queries, fragments, escapes, ports and IPv6 hosts are not modelled, and Go's exact acceptance rules are not claimed. The lemmas about it are stated only for text with no `?` or `#` in the parts they read, because net/url cuts the query and the fragment off first.
- `git clone`, `helm template` execution, `os.MkdirTemp`, `MkdirAll`, `WriteFile` and `RemoveAll` are abstract functions that say whether the call succeeds. Helm's output is an abstract text.
- `Run`'s prelude (temporary directory, output directory, `renderAndParseAppOfApps`) and `main`'s flag parsing are left out. Only the per-Application loop after them is modelled.
- Logging, the log formatters and all diagnostic messages are left out. Errors are datatypes that carry the offending field and values.
- `filepath.Join` is modelled on segment lists: empty and `.` segments are dropped, and `..` stays an ordinary segment (no parent collapsing). Tests on whole directory names are stated for names that hold no `/`.
- `strings.TrimSpace` trims ASCII whitespace only.
- `strconv.Atoi`: 64-bit overflow is not modelled (integers are unbounded).
- The order `sort.Slice` leaves equal indices in is a ghost output, so only "sorted permutation" is stated. Go map iteration order in `helm.Template` is a ghost output too.
- app.go's `argo.Application` is the older shape with `Metadata`/`Spec`. It is modelled with the parser's `RawApplication`.
- Parser.ApplicationOf: a label-only instance or env is not added to Setters. The code never adds it, so the model does not either.
- main.go's `processPluginEnv` and `processApplication` equal app.go's except for the converter. They are modelled once, as `App.ProcessPluginEnv` and `App.AppState.ProcessApplication`, with the converter a parameter.
