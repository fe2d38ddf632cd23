/**
 * The Application classifier and resolver of internal/pkg/argo/parser.go:
 * which documents of a decoded multi-document stream are Argo CD
 * Applications that pass the filter, and how each raw Application is
 * resolved into the canonical record the renderer works from.
 */
module Parser {
  import opened Wrappers
  import opened Strings
  import opened Yaml
  import opened Filter
  import opened WerfEnv

  // ---------------------------------------------------------------------
  // Data shapes

  datatype Metadata = Metadata(name: string, labels: map<string, string>, annotations: map<string, string>)

  /** `spec.source`; `plugin` is the optional plugin block with its env list. */
  datatype Source = Source(repoURL: string, targetRevision: string, path: string, plugin: Option<seq<EnvVar>>)

  /** The struct a document decodes into. */
  datatype RawApplication = RawApplication(apiVersion: string, kind: string, metadata: Metadata, source: Source)

  datatype Application = Application(
    name: string,
    instance: string,
    env: string,
    repoURL: string,
    path: string,
    targetRevision: string,
    setters: map<string, string>,
    valuesFiles: seq<string>)

  datatype AppError =
    | ConflictingValues(field: string, fromLabel: string, fromPlugin: string)
    | MissingRepository

  /**
   * One step of the YAML decoder: a document tree together with the result
   * of decoding it into a RawApplication (None when that decode fails), or
   * a document the decoder could not read.
   */
  datatype StreamItem = Decoded(node: Node, raw: Option<RawApplication>) | Malformed

  datatype ParseError =
    | FilterParseFailed(filterError: FilterError)
    | MalformedDocument
    | StructDecodeFailed
    | InvalidApplication(name: string, cause: AppError)

  const InstanceVar: string := "WERF_SET_INSTANCE"
  const EnvVarName: string := "WERF_SET_ENV"
  const RepoAnnotation: string := "rawRepository"
  const PathAnnotation: string := "rawPath"

  // ---------------------------------------------------------------------
  // WERF_SET_* values

  /** SplitN(s, "=", 2): the text around the first '=', or two empty strings when there is none. */
  function ExtractKeyValueFromWerfSet(s: string): (r: (string, string))
    ensures Contains(s, "=") ==> s == r.0 + "=" + r.1 && '=' !in r.0
    ensures !Contains(s, "=") ==> r == ("", "")
  {
    match Cut(s, "=")
    case None => ("", "")
    case Some(kv) =>
      CutBeforeFree(s, '=');
      kv
  }

  /** The key of a `key=value` pair with no '=' in the key comes back unchanged. */
  lemma ExtractKeyValueRoundTrip(key: string, value: string)
    requires '=' !in key
    ensures ExtractKeyValueFromWerfSet(key + "=" + value) == (key, value)
  {
    CutAtChar(key, '=', value);
  }

  /** The parser keeps an entry's override exactly when the shared rule without empty keys does. */
  lemma ParserSetterAgrees(e: EnvVar)
    ensures SetterOf(e, false).Some? <==> HasPrefix(e.name, SetPrefix) && ExtractKeyValueFromWerfSet(e.value).0 != ""
    ensures SetterOf(e, false).Some? ==> SetterOf(e, false).value == ExtractKeyValueFromWerfSet(e.value)
  {
  }

  /** The plugin env list, empty when there is no plugin block. */
  function PluginEnv(raw: RawApplication): seq<EnvVar> {
    if raw.source.plugin.Some? then raw.source.plugin.value else []
  }

  /** The value the last kept override of entry `name` carries, or "" if there is none. */
  function PluginIdentity(env: seq<EnvVar>, name: string): string
    decreases |env|
  {
    if env == [] then ""
    else
      var e := env[|env| - 1];
      if e.name == name && SetterOf(e, false).Some? then SetterOf(e, false).value.1
      else PluginIdentity(env[..|env| - 1], name)
  }

  /** A non-empty plugin identity is the value of an entry named `name` that no later kept entry of that name overrides. */
  lemma {:induction false} PluginIdentityLast(env: seq<EnvVar>, name: string) returns (i: nat)
    requires PluginIdentity(env, name) != ""
    ensures i < |env| && env[i].name == name && SetterOf(env[i], false).Some?
    ensures SetterOf(env[i], false).value.1 == PluginIdentity(env, name)
    ensures forall j :: i < j < |env| && env[j].name == name ==> SetterOf(env[j], false).None?
    decreases |env|
  {
    var e := env[|env| - 1];
    if e.name == name && SetterOf(e, false).Some? {
      i := |env| - 1;
    } else {
      var init := env[..|env| - 1];
      i := PluginIdentityLast(init, name);
      assert init[i] == env[i];
      assert forall j :: i < j < |init| ==> init[j] == env[j];
    }
  }

  /** With no kept entry named `name`, the plugin identity is empty. */
  lemma {:induction false} PluginIdentityNone(env: seq<EnvVar>, name: string)
    requires forall j :: 0 <= j < |env| && env[j].name == name ==> SetterOf(env[j], false).None?
    ensures PluginIdentity(env, name) == ""
    decreases |env|
  {
    if env != [] {
      var init := env[..|env| - 1];
      assert forall j :: 0 <= j < |init| ==> init[j] == env[j];
      PluginIdentityNone(init, name);
    }
  }

  // ---------------------------------------------------------------------
  // Resolution

  function Label(labels: map<string, string>, key: string): string {
    if key in labels then labels[key] else ""
  }

  /**
   * One identity field: a label and a plugin value that are both set and
   * differ conflict; otherwise the label wins when it is set.
   */
  function Reconcile(field: string, fromLabel: string, fromPlugin: string): (r: Result<string, AppError>)
    ensures r.Err? <==> fromLabel != "" && fromPlugin != "" && fromLabel != fromPlugin
    ensures r.Err? ==> r.error == ConflictingValues(field, fromLabel, fromPlugin)
    ensures r.Ok? ==> (r.value == fromLabel || r.value == fromPlugin) && (fromLabel != "" ==> r.value == fromLabel)
  {
    if fromLabel != "" && fromPlugin != "" && fromLabel != fromPlugin then Err(ConflictingValues(field, fromLabel, fromPlugin))
    else if fromLabel != "" then Ok(fromLabel)
    else Ok(fromPlugin)
  }

  /** The repository: the rawRepository annotation when set and non-empty, else spec.source.repoURL. */
  function RepoOf(raw: RawApplication): string {
    var ann := raw.metadata.annotations;
    if RepoAnnotation in ann && ann[RepoAnnotation] != "" then ann[RepoAnnotation] else raw.source.repoURL
  }

  /** The chart path: the rawPath annotation verbatim when present, else spec.source.path, else ".". */
  function PathOf(raw: RawApplication): string {
    var ann := raw.metadata.annotations;
    if PathAnnotation in ann then ann[PathAnnotation]
    else if raw.source.path != "" then raw.source.path
    else "."
  }

  /**
   * The canonical Application of `raw` whose values files are `valuesFiles`
   * (the env list determines them only up to the order of equal indices).
   * instance is reconciled before env, and both before the repository.
   */
  function ApplicationOf(raw: RawApplication, valuesFiles: seq<string>): Result<Application, AppError> {
    var env := PluginEnv(raw);
    var labels := raw.metadata.labels;
    var instance := Reconcile("instance", Label(labels, "instance"), PluginIdentity(env, InstanceVar));
    if instance.Err? then Err(instance.error)
    else
      var environment := Reconcile("env", Label(labels, "env"), PluginIdentity(env, EnvVarName));
      if environment.Err? then Err(environment.error)
      else if RepoOf(raw) == "" then Err(MissingRepository)
      else Ok(Application(raw.metadata.name, instance.value, environment.value, RepoOf(raw), PathOf(raw),
                          raw.source.targetRevision, Setters(env, false), valuesFiles))
  }

  /** Whether an Application is valid does not depend on its values files. */
  lemma ApplicationOfErrorIgnoresFiles(raw: RawApplication, files1: seq<string>, files2: seq<string>)
    ensures ApplicationOf(raw, files1).Err? <==> ApplicationOf(raw, files2).Err?
    ensures ApplicationOf(raw, files1).Err? ==> ApplicationOf(raw, files1).error == ApplicationOf(raw, files2).error
  {
  }

  /** The error cases: an instance conflict first, then an env conflict, then an empty repository. */
  lemma ApplicationOfErrors(raw: RawApplication, files: seq<string>)
    ensures var inst := (Label(raw.metadata.labels, "instance"), PluginIdentity(PluginEnv(raw), InstanceVar));
            var en := (Label(raw.metadata.labels, "env"), PluginIdentity(PluginEnv(raw), EnvVarName));
            var instConflict := inst.0 != "" && inst.1 != "" && inst.0 != inst.1;
            var envConflict := en.0 != "" && en.1 != "" && en.0 != en.1;
            var repoMissing := (RepoAnnotation !in raw.metadata.annotations || raw.metadata.annotations[RepoAnnotation] == "")
                               && raw.source.repoURL == "";
            && (ApplicationOf(raw, files).Err? <==> instConflict || envConflict || repoMissing)
            && (instConflict ==> ApplicationOf(raw, files) == Err(ConflictingValues("instance", inst.0, inst.1)))
            && (!instConflict && envConflict ==> ApplicationOf(raw, files) == Err(ConflictingValues("env", en.0, en.1)))
            && (!instConflict && !envConflict && repoMissing ==> ApplicationOf(raw, files) == Err(MissingRepository))
  {
  }

  /**
   * A resolved Application: name and revision copied, identity from the
   * label when set and else from the plugin, repository and path from the
   * annotation, then the spec field, then (for the path) ".", setters the
   * kept WERF_SET_* overrides, values files as given.
   */
  lemma ApplicationOfFields(raw: RawApplication, files: seq<string>)
    requires ApplicationOf(raw, files).Ok?
    ensures var app := ApplicationOf(raw, files).value;
            var ann := raw.metadata.annotations;
            var env := PluginEnv(raw);
            && app.name == raw.metadata.name
            && app.targetRevision == raw.source.targetRevision
            && app.instance == (if Label(raw.metadata.labels, "instance") != "" then Label(raw.metadata.labels, "instance") else PluginIdentity(env, InstanceVar))
            && app.env == (if Label(raw.metadata.labels, "env") != "" then Label(raw.metadata.labels, "env") else PluginIdentity(env, EnvVarName))
            && app.repoURL != ""
            && (RepoAnnotation in ann && ann[RepoAnnotation] != "" ==> app.repoURL == ann[RepoAnnotation])
            && (RepoAnnotation !in ann || ann[RepoAnnotation] == "" ==> app.repoURL == raw.source.repoURL)
            && (PathAnnotation in ann ==> app.path == ann[PathAnnotation])
            && (PathAnnotation !in ann && raw.source.path != "" ==> app.path == raw.source.path)
            && (PathAnnotation !in ann && raw.source.path == "" ==> app.path == ".")
            && app.setters == Setters(env, false)
            && app.valuesFiles == files
  {
  }

  /** Without a plugin block there are no setters and no values files, whatever the labels say. */
  lemma NoPluginBlock(raw: RawApplication, files: seq<string>)
    requires raw.source.plugin.None?
    requires RepoOf(raw) != ""
    ensures ApplicationOf(raw, files).Ok?
    ensures ApplicationOf(raw, files).value.setters == map[]
    ensures ApplicationOf(raw, files).value.instance == Label(raw.metadata.labels, "instance")
    ensures ApplicationOf(raw, files).value.env == Label(raw.metadata.labels, "env")
    ensures ValuesFilesOf(PluginEnv(raw), files) ==> files == []
  {
    if ValuesFilesOf(PluginEnv(raw), files) {
      var order :| SortedArrangement(order, Indexed(PluginEnv(raw))) && files == FilePaths(order);
      assert |multiset(order)| == 0;
    }
  }

  /** A label and a WERF_SET_INSTANCE value that differ are a conflict naming both. */
  lemma InstanceConflict(raw: RawApplication, files: seq<string>, fromLabel: string, key: string, value: string)
    requires Label(raw.metadata.labels, "instance") == fromLabel && fromLabel != "" && value != "" && fromLabel != value
    requires key != "" && '=' !in key
    requires raw.source.plugin == Some([EnvVar(InstanceVar, key + "=" + value)])
    ensures ApplicationOf(raw, files) == Err(ConflictingValues("instance", fromLabel, value))
  {
    ExtractKeyValueRoundTrip(key, value);
    var env := [EnvVar(InstanceVar, key + "=" + value)];
    assert env[..0] == [];
    assert PluginIdentity(env, InstanceVar) == value;
  }

  /** The same value from both sources is no conflict, and is also recorded as a setter. */
  lemma InstanceAgreement(raw: RawApplication, files: seq<string>, key: string, value: string)
    requires Label(raw.metadata.labels, "instance") == value && value != ""
    requires Label(raw.metadata.labels, "env") == ""
    requires key != "" && '=' !in key
    requires raw.source.plugin == Some([EnvVar(InstanceVar, key + "=" + value)])
    requires RepoOf(raw) != ""
    ensures ApplicationOf(raw, files).Ok?
    ensures ApplicationOf(raw, files).value.instance == value
    ensures ApplicationOf(raw, files).value.env == ""
    ensures ApplicationOf(raw, files).value.setters == map[key := value]
  {
    ExtractKeyValueRoundTrip(key, value);
    var env := [EnvVar(InstanceVar, key + "=" + value)];
    assert env[..0] == [];
    assert PluginIdentity(env, InstanceVar) == value;
    assert PluginIdentity(env, EnvVarName) == "";
    assert Setters(env, false) == map[key := value];
  }

  // ---------------------------------------------------------------------
  // newApplicationFromRaw and extractAndSortValuesFiles

  /** The WERF_VALUES_* files of `env` in load order (ascending index). */
  method ExtractAndSortValuesFiles(env: seq<EnvVar>) returns (files: seq<string>, ghost order: seq<IndexedFile>)
    ensures SortedArrangement(order, Indexed(env)) && files == FilePaths(order)
    ensures ValuesFilesOf(env, files)
  {
    var indexed: seq<IndexedFile> := [];
    var i := 0;
    while i < |env|
      invariant 0 <= i <= |env|
      invariant indexed == Indexed(env[..i])
    {
      assert env[..i + 1][..i] == env[..i];
      var e := env[i];
      if HasPrefix(e.name, ValuesPrefix) {
        var index := Atoi(TrimPrefix(e.name, ValuesPrefix));
        if index.Some? {
          indexed := indexed + [IndexedFile(index.value, e.value)];
        }
      }
      i := i + 1;
    }
    assert env[..i] == env;
    files, order := SortedPaths(indexed);
  }

  /** The loop over the plugin environment: the setter map and the two identity variables. */
  method ScanPluginEnv(env: seq<EnvVar>) returns (setters: map<string, string>, instance: string, environment: string)
    ensures setters == Setters(env, false)
    ensures instance == PluginIdentity(env, InstanceVar)
    ensures environment == PluginIdentity(env, EnvVarName)
  {
    setters, instance, environment := map[], "", "";
    var i := 0;
    while i < |env|
      invariant 0 <= i <= |env|
      invariant setters == Setters(env[..i], false)
      invariant instance == PluginIdentity(env[..i], InstanceVar)
      invariant environment == PluginIdentity(env[..i], EnvVarName)
    {
      assert env[..i + 1][..i] == env[..i];
      var e := env[i];
      ParserSetterAgrees(e);
      if HasPrefix(e.name, SetPrefix) {
        var kv := ExtractKeyValueFromWerfSet(e.value);
        if kv.0 != "" {
          setters := setters[kv.0 := kv.1];
          if e.name == InstanceVar {
            instance := kv.1;
          }
          if e.name == EnvVarName {
            environment := kv.1;
          }
        }
      }
      i := i + 1;
    }
    assert env[..i] == env;
  }

  /**
   * newApplicationFromRaw: one pass over the plugin env records the setters
   * and the last WERF_SET_INSTANCE / WERF_SET_ENV values, then the identity,
   * repository and path are resolved.  `files` is the values-file list the
   * sort produced.
   */
  method NewApplicationFromRaw(raw: RawApplication) returns (r: Result<Application, AppError>, ghost files: seq<string>)
    ensures ValuesFilesOf(PluginEnv(raw), files)
    ensures r == ApplicationOf(raw, files)
    ensures r.Err? ==> r == ApplicationOf(raw, [])
    ensures r.Ok? ==> Ok(r.value.(valuesFiles := [])) == ApplicationOf(raw, [])
  {
    var env := PluginEnv(raw);
    var valuesFiles: seq<string> := [];
    files := [];
    var setters: map<string, string> := map[];
    var instanceFromPlugin := "";
    var envFromPlugin := "";
    if raw.source.plugin.Some? {
      ghost var order;
      valuesFiles, order := ExtractAndSortValuesFiles(env);
      files := valuesFiles;
      setters, instanceFromPlugin, envFromPlugin := ScanPluginEnv(env);
    } else {
      assert Indexed(env) == [];
      assert SortedArrangement([], Indexed(env)) && files == FilePaths([]);
    }

    var labels := raw.metadata.labels;
    var instanceFromLabel := Label(labels, "instance");
    var envFromLabel := Label(labels, "env");
    if instanceFromLabel != "" && instanceFromPlugin != "" && instanceFromLabel != instanceFromPlugin {
      return Err(ConflictingValues("instance", instanceFromLabel, instanceFromPlugin)), files;
    }
    var instance := if instanceFromLabel != "" then instanceFromLabel else instanceFromPlugin;
    if envFromLabel != "" && envFromPlugin != "" && envFromLabel != envFromPlugin {
      return Err(ConflictingValues("env", envFromLabel, envFromPlugin)), files;
    }
    var environment := if envFromLabel != "" then envFromLabel else envFromPlugin;

    var ann := raw.metadata.annotations;
    var repoURL := "";
    if RepoAnnotation in ann && ann[RepoAnnotation] != "" {
      repoURL := ann[RepoAnnotation];
    } else {
      repoURL := raw.source.repoURL;
      if repoURL == "" {
        return Err(MissingRepository), files;
      }
    }
    var path := "";
    if PathAnnotation in ann {
      path := ann[PathAnnotation];
    } else {
      path := raw.source.path;
      if path == "" {
        path := ".";
      }
    }
    r := Ok(Application(raw.metadata.name, instance, environment, repoURL, path,
                        raw.source.targetRevision, setters, valuesFiles));
  }

  // ---------------------------------------------------------------------
  // ParseApplications

  const ApplicationKind: string := "Application"
  const ApplicationApiVersion: string := "argoproj.io/v1alpha1"
  const KindPath: string := "kind"
  const ApiVersionPath: string := "apiVersion"

  /** A document is an Argo CD Application by its `kind` and `apiVersion` values. */
  predicate Classified(n: Node) {
    Lookup(Some(n), KindPath).0 == ApplicationKind && Lookup(Some(n), ApiVersionPath).0 == ApplicationApiVersion
  }

  /** An Application document that the optional filter lets through. */
  predicate Selected(filter: Option<FilterCriteria>, n: Node) {
    Classified(n) && (filter.None? || Match(filter.value, Some(n)))
  }

  /** The error a stream item stops ParseApplications with, if any. */
  function ItemError(item: StreamItem, filter: Option<FilterCriteria>): Option<ParseError> {
    match item
    case Malformed => Some(MalformedDocument)
    case Decoded(n, raw) =>
      if !Selected(filter, n) then None
      else if raw.None? then Some(StructDecodeFailed)
      else if ApplicationOf(raw.value, []).Err? then Some(InvalidApplication(raw.value.metadata.name, ApplicationOf(raw.value, []).error))
      else None
  }

  /** The selected raw applications of a stream, or the error of the first item that raises one. */
  function Selection(items: seq<StreamItem>, filter: Option<FilterCriteria>): Result<seq<RawApplication>, ParseError>
    decreases |items|
  {
    if items == [] then Ok([])
    else match ItemError(items[0], filter)
      case Some(e) => Err(e)
      case None =>
        if Selected(filter, items[0].node) then Prepend(items[0].raw.value, Selection(items[1..], filter))
        else Selection(items[1..], filter)
  }

  /** The raw applications of the selected documents, in stream order. */
  function Chosen(items: seq<StreamItem>, filter: Option<FilterCriteria>): seq<RawApplication>
    decreases |items|
  {
    if items == [] then []
    else
      var item := items[0];
      if item.Decoded? && Selected(filter, item.node) && item.raw.Some? then [item.raw.value] + Chosen(items[1..], filter)
      else Chosen(items[1..], filter)
  }

  /** An Application resolved from `raw` with one of its valid values-file orders. */
  ghost predicate Resolved(raw: RawApplication, app: Application) {
    ValuesFilesOf(PluginEnv(raw), app.valuesFiles) && ApplicationOf(raw, app.valuesFiles) == Ok(app)
  }

  ghost predicate ResolvedAll(raws: seq<RawApplication>, apps: seq<Application>) {
    |raws| == |apps| && forall k :: 0 <= k < |raws| ==> Resolved(raws[k], apps[k])
  }

  lemma ResolvedFrom(raw: RawApplication, files: seq<string>, app: Application)
    requires ValuesFilesOf(PluginEnv(raw), files) && ApplicationOf(raw, files) == Ok(app)
    ensures Resolved(raw, app)
  {
    ApplicationOfFields(raw, files);
  }

  lemma ResolvedAllAppend(raws: seq<RawApplication>, apps: seq<Application>, raw: RawApplication, app: Application)
    requires ResolvedAll(raws, apps) && Resolved(raw, app)
    ensures ResolvedAll(raws + [raw], apps + [app])
  {
  }

  /** What ParseApplications may return for a stream under a parsed filter. */
  ghost predicate Parsed(items: seq<StreamItem>, filter: Option<FilterCriteria>, r: Result<seq<Application>, ParseError>) {
    var selection := Selection(items, filter);
    && (selection.Err? ==> r == Err(selection.error))
    && (selection.Ok? ==> r.Ok? && ResolvedAll(selection.value, r.value))
  }

  /**
   * ParseApplications over an already-decoded stream: a bad filter fails
   * before any document is looked at; otherwise the selected documents are
   * resolved in order and the first error aborts the whole call.
   */
  method ParseApplications(items: seq<StreamItem>, filterStr: string) returns (r: Result<seq<Application>, ParseError>)
    ensures ParseFilter(filterStr).Err? ==> r == Err(FilterParseFailed(ParseFilter(filterStr).error))
    ensures ParseFilter(filterStr).Ok? ==> Parsed(items, ParseFilter(filterStr).value, r)
  {
    var parsed := ParseFilter(filterStr);
    if parsed.Err? {
      return Err(FilterParseFailed(parsed.error));
    }
    var filter := parsed.value;
    var apps: seq<Application> := [];
    ghost var raws: seq<RawApplication> := [];
    var i := 0;
    assert items[i..] == items;
    PrependAllNil(Selection(items, filter));
    while i < |items|
      invariant 0 <= i <= |items|
      invariant Selection(items, filter) == PrependAll(raws, Selection(items[i..], filter))
      invariant ResolvedAll(raws, apps)
    {
      assert items[i..][1..] == items[i + 1..];
      var item := items[i];
      if item.Malformed? {
        return Err(MalformedDocument);
      }
      var kind, _ := GetNodeValueByPath(Some(item.node), KindPath);
      var apiVersion, _ := GetNodeValueByPath(Some(item.node), ApiVersionPath);
      var selected := kind == ApplicationKind && apiVersion == ApplicationApiVersion
                      && (filter.None? || Match(filter.value, Some(item.node)));
      assert selected == Selected(filter, item.node);
      if !selected {
        assert Selection(items[i..], filter) == Selection(items[i + 1..], filter);
        i := i + 1;
        continue;
      }
      if item.raw.None? {
        return Err(StructDecodeFailed);
      }
      var raw := item.raw.value;
      var app;
      ghost var files;
      app, files := NewApplicationFromRaw(raw);
      ApplicationOfErrorIgnoresFiles(raw, files, []);
      if app.Err? {
        return Err(InvalidApplication(raw.metadata.name, app.error));
      }
      assert Selection(items[i..], filter) == Prepend(raw, Selection(items[i + 1..], filter));
      ResolvedFrom(raw, files, app.value);
      ResolvedAllAppend(raws, apps, raw, app.value);
      PrependAllStep(raws, raw, Selection(items[i + 1..], filter));
      raws := raws + [raw];
      apps := apps + [app.value];
      i := i + 1;
    }
    assert items[i..] == [] && raws + [] == raws;
    return Ok(apps);
  }

  /** ParseApplications succeeds iff no item raises an error. */
  lemma {:induction false} SelectionOk(items: seq<StreamItem>, filter: Option<FilterCriteria>)
    ensures Selection(items, filter).Ok? <==> forall i :: 0 <= i < |items| ==> ItemError(items[i], filter).None?
    decreases |items|
  {
    if items != [] {
      SelectionOk(items[1..], filter);
      assert forall i :: 1 <= i < |items| ==> items[1..][i - 1] == items[i];
    }
  }

  /** On success the result follows the selected documents one for one, in stream order. */
  lemma {:induction false} SelectionChosen(items: seq<StreamItem>, filter: Option<FilterCriteria>)
    requires Selection(items, filter).Ok?
    ensures Selection(items, filter).value == Chosen(items, filter)
    decreases |items|
  {
    if items != [] {
      SelectionChosen(items[1..], filter);
    }
  }

  /** On failure the error is that of the first item that raises one; nothing is returned. */
  lemma {:induction false} SelectionFirstError(items: seq<StreamItem>, filter: Option<FilterCriteria>) returns (i: nat)
    requires Selection(items, filter).Err?
    ensures i < |items| && ItemError(items[i], filter) == Some(Selection(items, filter).error)
    ensures forall j :: 0 <= j < i ==> ItemError(items[j], filter).None?
    decreases |items|
  {
    SelectionHead(items, filter);
    if ItemError(items[0], filter).Some? {
      i := 0;
    } else {
      var k := SelectionFirstError(items[1..], filter);
      FirstErrorShift(items, filter, k);
      i := k + 1;
    }
  }

  /** The first error of the rest, at k, is the first error of the whole stream, at k + 1. */
  lemma FirstErrorShift(items: seq<StreamItem>, filter: Option<FilterCriteria>, k: nat)
    requires 0 < |items| && k < |items| - 1 && ItemError(items[0], filter).None?
    requires ItemError(items[1..][k], filter).Some?
    requires forall j :: 0 <= j < k ==> ItemError(items[1..][j], filter).None?
    ensures ItemError(items[k + 1], filter) == ItemError(items[1..][k], filter)
    ensures forall j :: 0 <= j < k + 1 ==> ItemError(items[j], filter).None?
  {
    assert items[k + 1] == items[1..][k];
    forall j | 0 < j < k + 1
      ensures ItemError(items[j], filter).None?
    {
      assert items[j] == items[1..][j - 1];
    }
  }
  /** A failure is the first item's own error, or else the rest's failure. */
  lemma SelectionHead(items: seq<StreamItem>, filter: Option<FilterCriteria>)
    requires Selection(items, filter).Err?
    ensures items != []
    ensures ItemError(items[0], filter).Some? ==> ItemError(items[0], filter) == Some(Selection(items, filter).error)
    ensures ItemError(items[0], filter).None? ==>
      Selection(items[1..], filter).Err? && Selection(items[1..], filter).error == Selection(items, filter).error
  {
  }


  /** A document that is not an Application (a ConfigMap, an AppProject) changes nothing. */
  lemma NonApplicationSkipped(n: Node, raw: Option<RawApplication>, items: seq<StreamItem>, filter: Option<FilterCriteria>)
    requires !Classified(n)
    ensures Selection([Decoded(n, raw)] + items, filter) == Selection(items, filter)
    ensures Chosen([Decoded(n, raw)] + items, filter) == Chosen(items, filter)
  {
    assert ([Decoded(n, raw)] + items)[1..] == items;
  }

  /** An empty filter string selects every Application document. */
  lemma EmptyFilterSelectsAll(n: Node)
    ensures ParseFilter("") == Ok(None)
    ensures Selected(ParseFilter("").value, n) <==> Classified(n)
  {
  }

  /** `path==value` and `path!=value` split the Application documents between them. */
  lemma {:induction false} EqualsAndNotEqualsPartition(items: seq<StreamItem>, path: string, value: string)
    ensures |Chosen(items, Some(FilterCriteria(path, "==", value)))| + |Chosen(items, Some(FilterCriteria(path, "!=", value)))|
            == |Chosen(items, None)|
    decreases |items|
  {
    if items != [] {
      EqualsAndNotEqualsPartition(items[1..], path, value);
      if items[0].Decoded? {
        MatchNotEqualsIsComplement(path, value, items[0].node);
      }
    }
  }
}
