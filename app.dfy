/**
 * internal/app/app.go: per-Application processing of the renderer.  The
 * plugin env gives the --set and --values options, the repository URL is
 * normalised to its SSH form, the repository is cloned once per
 * (URL, revision) into a numbered directory under the temporary directory,
 * the chart is rendered and the manifest is written under the output
 * directory, in env and instance sub-directories.  git, helm and the
 * file system are parameters: each is a function telling whether the
 * operation succeeds (and, for helm, what it prints).
 */
module App {
  import opened Wrappers
  import opened Strings
  import opened WerfEnv
  import opened Parser
  import opened U = Url
  import Paths
  import opened Helm

  // ---------------------------------------------------------------------
  // processPluginEnv

  /**
   * One pass over the env list: WERF_SET_* entries are cut at the first '='
   * (an empty key is kept), WERF_VALUES_<n> entries with an integer suffix
   * are collected and then sorted by index.
   */
  method ProcessPluginEnv(env: seq<EnvVar>) returns (setValues: map<string, string>, valuesFiles: seq<string>, ghost order: seq<IndexedFile>)
    ensures setValues == Setters(env, true)
    ensures SortedArrangement(order, Indexed(env)) && valuesFiles == FilePaths(order)
    ensures ValuesFilesOf(env, valuesFiles)
  {
    setValues := map[];
    var indexed: seq<IndexedFile> := [];
    var i := 0;
    while i < |env|
      invariant 0 <= i <= |env|
      invariant setValues == Setters(env[..i], true)
      invariant indexed == Indexed(env[..i])
    {
      assert env[..i + 1][..i] == env[..i];
      var e := env[i];
      PrefixesExclusive(e.name);
      if HasPrefix(e.name, SetPrefix) {
        var parts := Cut(e.value, "=");
        if parts.Some? {
          setValues := setValues[parts.value.0 := parts.value.1];
        }
      } else if HasPrefix(e.name, ValuesPrefix) {
        var index := Atoi(TrimPrefix(e.name, ValuesPrefix));
        if index.Some? {
          indexed := indexed + [IndexedFile(index.value, e.value)];
        }
      }
      i := i + 1;
    }
    assert env[..i] == env;
    valuesFiles, order := SortedPaths(indexed);
  }

  /** Unlike the parser, processPluginEnv keeps a setter whose key is empty. */
  lemma EmptyKeyKept(name: string, value: string)
    requires HasPrefix(name, SetPrefix)
    ensures Setters([EnvVar(name, "=" + value)], true) == map["" := value]
    ensures Setters([EnvVar(name, "=" + value)], false) == map[]
  {
    CutAtChar("", '=', value);
    assert "" + "=" + value == "=" + value;
    assert [EnvVar(name, "=" + value)][..0] == [];
  }

  /** A setter entry `key=value` with no '=' in the key sets that key. */
  lemma SetEntry(name: string, key: string, value: string, allowEmptyKey: bool)
    requires HasPrefix(name, SetPrefix) && '=' !in key && (key != "" || allowEmptyKey)
    ensures SetterOf(EnvVar(name, key + "=" + value), allowEmptyKey) == Some((key, value))
  {
    CutAtChar(key, '=', value);
  }

  /** A values entry whose suffix is the decimal text of n is the file at index n. */
  lemma ValuesEntry(n: nat, path: string)
    ensures IndexedOf(EnvVar(ValuesPrefix + NatToString(n), path)) == Some(IndexedFile(n, path))
  {
    var name := ValuesPrefix + NatToString(n);
    assert HasPrefix(name, ValuesPrefix);
    assert TrimPrefix(name, ValuesPrefix) == NatToString(n);
    AtoiNatToString(n);
  }


  /**
   * The processPluginEnv example: values files with indices 10, 1 and 2,
   * one valid setter, an unrelated variable and a setter without '='.
   */
  function PluginEnvExample(setName: string, key: string, value: string, otherName: string, otherValue: string,
                            badName: string, badValue: string, p10: string, p1: string, p2: string): seq<EnvVar>
  {
    [EnvVar(ValuesPrefix + NatToString(10), p10), EnvVar(setName, key + "=" + value),
     EnvVar(ValuesPrefix + NatToString(1), p1), EnvVar(ValuesPrefix + NatToString(2), p2),
     EnvVar(otherName, otherValue), EnvVar(badName, badValue)]
  }

  /** The example yields the single setter `key=value`; the setter without '=' is dropped. */
  lemma PluginEnvExampleSetters(setName: string, key: string, value: string, otherName: string, otherValue: string,
                                badName: string, badValue: string, p10: string, p1: string, p2: string)
    requires HasPrefix(setName, SetPrefix) && '=' !in key && key != ""
    requires HasPrefix(badName, SetPrefix) && '=' !in badValue
    requires !HasPrefix(otherName, SetPrefix) && !HasPrefix(otherName, ValuesPrefix)
    ensures Setters(PluginEnvExample(setName, key, value, otherName, otherValue, badName, badValue, p10, p1, p2), true) == map[key := value]
  {
    var env := PluginEnvExample(setName, key, value, otherName, otherValue, badName, badValue, p10, p1, p2);
    SetEntry(setName, key, value, true);
    CutMissing(badValue, '=');
    assert HasPrefix(env[0].name, ValuesPrefix) && HasPrefix(env[2].name, ValuesPrefix) && HasPrefix(env[3].name, ValuesPrefix);
    PrefixesExclusive(env[0].name);
    PrefixesExclusive(env[2].name);
    PrefixesExclusive(env[3].name);
    SettersOfSix(env[0], env[1], env[2], env[3], env[4], env[5]);
    assert env == [env[0], env[1], env[2], env[3], env[4], env[5]];
  }

  /** Six entries of which only the second sets an override. */
  lemma SettersOfSix(e0: EnvVar, e1: EnvVar, e2: EnvVar, e3: EnvVar, e4: EnvVar, e5: EnvVar)
    requires SetterOf(e1, true).Some?
    requires SetterOf(e0, true).None? && SetterOf(e2, true).None? && SetterOf(e3, true).None?
    requires SetterOf(e4, true).None? && SetterOf(e5, true).None?
    ensures Setters([e0, e1, e2, e3, e4, e5], true) == map[SetterOf(e1, true).value.0 := SetterOf(e1, true).value.1]
  {
    var kv := SetterOf(e1, true).value;
    SettersAppendNone([], e0, true);
    SettersAppendSet([e0], e1, true, kv.0, kv.1);
    SettersAppendNone([e0, e1], e2, true);
    SettersAppendNone([e0, e1, e2], e3, true);
    SettersAppendNone([e0, e1, e2, e3], e4, true);
    SettersAppendNone([e0, e1, e2, e3, e4], e5, true);
    assert [] + [e0] == [e0];
    assert [e0] + [e1] == [e0, e1];
    assert [e0, e1] + [e2] == [e0, e1, e2];
    assert [e0, e1, e2] + [e3] == [e0, e1, e2, e3];
    assert [e0, e1, e2, e3] + [e4] == [e0, e1, e2, e3, e4];
    assert [e0, e1, e2, e3, e4] + [e5] == [e0, e1, e2, e3, e4, e5];
  }



  lemma PluginEnvExampleIndexed(setName: string, key: string, value: string, otherName: string, otherValue: string,
                                badName: string, badValue: string, p10: string, p1: string, p2: string)
    requires HasPrefix(setName, SetPrefix) && HasPrefix(badName, SetPrefix)
    requires !HasPrefix(otherName, ValuesPrefix)
    ensures Indexed(PluginEnvExample(setName, key, value, otherName, otherValue, badName, badValue, p10, p1, p2))
            == [IndexedFile(10, p10), IndexedFile(1, p1), IndexedFile(2, p2)]
  {
    var env := PluginEnvExample(setName, key, value, otherName, otherValue, badName, badValue, p10, p1, p2);
    ValuesEntry(10, p10);
    ValuesEntry(1, p1);
    ValuesEntry(2, p2);
    PrefixesExclusive(setName);
    PrefixesExclusive(badName);
    IndexedOfSix(env[0], env[1], env[2], env[3], env[4], env[5]);
    assert env == [env[0], env[1], env[2], env[3], env[4], env[5]];
  }

  /** Six entries of which the first, third and fourth carry values files. */
  lemma IndexedOfSix(e0: EnvVar, e1: EnvVar, e2: EnvVar, e3: EnvVar, e4: EnvVar, e5: EnvVar)
    requires IndexedOf(e0).Some? && IndexedOf(e2).Some? && IndexedOf(e3).Some?
    requires IndexedOf(e1).None? && IndexedOf(e4).None? && IndexedOf(e5).None?
    ensures Indexed([e0, e1, e2, e3, e4, e5]) == [IndexedOf(e0).value, IndexedOf(e2).value, IndexedOf(e3).value]
  {
    var f0, f2, f3 := IndexedOf(e0).value, IndexedOf(e2).value, IndexedOf(e3).value;
    assert Indexed([e0]) == [f0] by {
      IndexedAppendFile([], e0, f0);
      assert [] + [e0] == [e0];
    }
    assert Indexed([e0, e1]) == [f0] by {
      IndexedAppendNone([e0], e1);
      assert [e0] + [e1] == [e0, e1];
    }
    assert Indexed([e0, e1, e2]) == [f0, f2] by {
      IndexedAppendFile([e0, e1], e2, f2);
      assert [e0, e1] + [e2] == [e0, e1, e2];
    }
    assert Indexed([e0, e1, e2, e3]) == [f0, f2, f3] by {
      IndexedAppendFile([e0, e1, e2], e3, f3);
      assert [e0, e1, e2] + [e3] == [e0, e1, e2, e3];
    }
    assert Indexed([e0, e1, e2, e3, e4]) == [f0, f2, f3] by {
      IndexedAppendNone([e0, e1, e2, e3], e4);
      assert [e0, e1, e2, e3] + [e4] == [e0, e1, e2, e3, e4];
    }
    IndexedAppendNone([e0, e1, e2, e3, e4], e5);
    assert [e0, e1, e2, e3, e4] + [e5] == [e0, e1, e2, e3, e4, e5];
  }




  /** Files indexed 10, 1 and 2 can only be arranged as 1, 2, 10. */
  lemma ArrangedExample(items: seq<IndexedFile>, p10: string, p1: string, p2: string, files: seq<string>)
    requires items == [IndexedFile(10, p10), IndexedFile(1, p1), IndexedFile(2, p2)]
    ensures Arranged(items, files) <==> files == [p1, p2, p10]
  {
    var order := [IndexedFile(1, p1), IndexedFile(2, p2), IndexedFile(10, p10)];
    ExampleOrder(p10, p1, p2);
    assert FilePaths(order) == [p1, p2, p10];
    if Arranged(items, files) {
      var other :| SortedArrangement(other, items) && files == FilePaths(other);
      ExampleIndicesDistinct(p10, p1, p2);
      SortedArrangementUnique(other, order);
    }
  }

  lemma ExampleOrder(p10: string, p1: string, p2: string)
    ensures SortedArrangement([IndexedFile(1, p1), IndexedFile(2, p2), IndexedFile(10, p10)],
                              [IndexedFile(10, p10), IndexedFile(1, p1), IndexedFile(2, p2)])
  {
  }

  lemma ExampleIndicesDistinct(p10: string, p1: string, p2: string)
    ensures IndexDeterminesFile(multiset([IndexedFile(10, p10), IndexedFile(1, p1), IndexedFile(2, p2)]))
  {
  }
  /** The example's values files come out as the files indexed 1, 2 and 10, in that order. */
  lemma PluginEnvExampleFiles(setName: string, key: string, value: string, otherName: string, otherValue: string,
                              badName: string, badValue: string, p10: string, p1: string, p2: string, files: seq<string>)
    requires HasPrefix(setName, SetPrefix) && HasPrefix(badName, SetPrefix)
    requires !HasPrefix(otherName, ValuesPrefix)
    ensures ValuesFilesOf(PluginEnvExample(setName, key, value, otherName, otherValue, badName, badValue, p10, p1, p2), files)
            <==> files == [p1, p2, p10]
  {
    PluginEnvExampleIndexed(setName, key, value, otherName, otherValue, badName, badValue, p10, p1, p2);
    ArrangedExample(Indexed(PluginEnvExample(setName, key, value, otherName, otherValue, badName, badValue, p10, p1, p2)), p10, p1, p2, files);
  }

  // ---------------------------------------------------------------------
  // convertHTTPtoSSH

  datatype ConvertError = CouldNotParse(cause: UrlError)

  const SshPrefix: string := "git@"

  /**
   * convertHTTPtoSSH: text already in `git@` form is kept without parsing;
   * otherwise an http(s) URL becomes `git@host:path` with one leading '/'
   * of the path dropped, another scheme is kept as it is, and a URL that
   * does not parse is an error.
   */
  function ConvertHttpToSsh(httpURL: string, parse: UrlParser): (r: Result<string, ConvertError>)
    ensures r.Err? <==> !HasPrefix(httpURL, SshPrefix) && parse(httpURL).Err?
    ensures r.Err? ==> r.error == CouldNotParse(parse(httpURL).error)
    ensures r.Ok? ==> r.value == httpURL || HasPrefix(r.value, SshPrefix)
  {
    if HasPrefix(httpURL, SshPrefix) then Ok(httpURL)
    else match parse(httpURL)
      case Err(e) => Err(CouldNotParse(e))
      case Ok(u) =>
        if u.scheme != "https" && u.scheme != "http" then Ok(httpURL)
        else Ok(SshPrefix + u.host + ":" + TrimPrefix(u.path, "/"))
  }

  /** `git@` text comes back unchanged, whatever the URL parser would say about it. */
  lemma ConvertKeepsSsh(httpURL: string, parse: UrlParser, other: UrlParser)
    requires HasPrefix(httpURL, SshPrefix)
    ensures ConvertHttpToSsh(httpURL, parse) == Ok(httpURL)
    ensures ConvertHttpToSsh(httpURL, parse) == ConvertHttpToSsh(httpURL, other)
  {
  }

  /** The result of every other input is decided by its parse: an error, the input, or the SSH form. */
  lemma ConvertCases(httpURL: string, parse: UrlParser)
    requires !HasPrefix(httpURL, SshPrefix)
    ensures parse(httpURL).Err? ==> ConvertHttpToSsh(httpURL, parse) == Err(CouldNotParse(parse(httpURL).error))
    ensures parse(httpURL).Ok? && parse(httpURL).value.scheme != "http" && parse(httpURL).value.scheme != "https"
            ==> ConvertHttpToSsh(httpURL, parse) == Ok(httpURL)
    ensures parse(httpURL).Ok? && (parse(httpURL).value.scheme == "http" || parse(httpURL).value.scheme == "https")
            ==> ConvertHttpToSsh(httpURL, parse).Ok? && HasPrefix(ConvertHttpToSsh(httpURL, parse).value, SshPrefix)
  {
    if parse(httpURL).Ok? {
      var u := parse(httpURL).value;
      var r := SshPrefix + u.host + ":" + TrimPrefix(u.path, "/");
      assert r[..|SshPrefix|] == SshPrefix;
    }
  }

  /** Exactly one leading '/' of the path is dropped: `/a` gives `a`, `//a` gives `/a`. */
  lemma ConvertStripsOneSlash(httpURL: string, parse: UrlParser, scheme: string, host: string, rest: string)
    requires !HasPrefix(httpURL, SshPrefix)
    requires scheme == "http" || scheme == "https"
    requires parse(httpURL) == Ok(U.Url(scheme, host, "/" + rest))
    ensures ConvertHttpToSsh(httpURL, parse) == Ok(SshPrefix + host + ":" + rest)
  {
    assert ("/" + rest)[..1] == "/";
    assert ("/" + rest)[1..] == rest;
  }

  /** Converting twice is converting once: successful output is never rewritten again. */
  lemma ConvertIdempotent(httpURL: string, parse: UrlParser)
    requires ConvertHttpToSsh(httpURL, parse).Ok?
    ensures ConvertHttpToSsh(ConvertHttpToSsh(httpURL, parse).value, parse) == ConvertHttpToSsh(httpURL, parse)
  {
    if !HasPrefix(httpURL, SshPrefix) {
      ConvertCases(httpURL, parse);
    }
  }

  /** With the reference parser: `scheme://host/path` (no query, no fragment) becomes `git@host:path`. */
  lemma ConvertReferenceHttp(scheme: string, host: string, path: string)
    requires scheme == "http" || scheme == "https"
    requires '/' !in host && '@' !in host && '?' !in host + path && '#' !in host + path
    ensures ConvertHttpToSsh(scheme + "://" + host + "/" + path, ParseReference) == Ok(SshPrefix + host + ":" + path)
  {
    var s := scheme + "://" + host + "/" + path;
    ParseHierarchical(scheme, host, path);
    assert s[0] == 'h' && SshPrefix[0] == 'g';
    ConvertStripsOneSlash(s, ParseReference, scheme, host, path);
  }

  /** With the reference parser: text starting with "://" has no scheme and is an error. */
  lemma ConvertReferenceMissingScheme(rest: string)
    ensures ConvertHttpToSsh("://" + rest, ParseReference) == Err(CouldNotParse(MissingProtocolScheme))
  {
    assert "://" + rest == ":" + ("//" + rest);
    ParseMissingScheme("//" + rest);
  }

  // ---------------------------------------------------------------------
  // Clone cache

  /** The cache key: the SSH URL and the revision joined by '@'. */
  function CacheKey(sshURL: string, revision: string): string {
    sshURL + "@" + revision
  }

  /** Keys differ for different (URL, revision) pairs as long as revisions hold no '@'. */
  lemma CacheKeyInjective(url1: string, rev1: string, url2: string, rev2: string)
    requires '@' !in rev1 && '@' !in rev2
    requires CacheKey(url1, rev1) == CacheKey(url2, rev2)
    ensures url1 == url2 && rev1 == rev2
  {
    var k := CacheKey(url1, rev1);
    LastAt(url1, rev1);
    LastAt(url2, rev2);
    assert rev1 == k[|k| - |rev1|..] == rev2;
    assert url1 == k[..|url1|] == url2;
  }

  /** The '@' before a revision without '@' is the last '@' of the key. */
  lemma LastAt(url: string, rev: string)
    requires '@' !in rev
    ensures var k := CacheKey(url, rev);
            && k[|k| - |rev| - 1] == '@'
            && (forall i :: |k| - |rev| <= i < |k| ==> k[i] != '@')
  {
    var k := CacheKey(url, rev);
    assert forall i :: |k| - |rev| <= i < |k| ==> k[i] == rev[i - (|k| - |rev|)];
  }

  /** Without that condition two pairs can share a key. */
  lemma CacheKeyCollision()
    ensures CacheKey("a@b", "c") == CacheKey("a", "b@c")
  {
  }

  const ClonePrefix: string := "clone-"

  /** The directory of the n-th clone: `tempDir/clone-n`. */
  function CloneDir(tempDir: Paths.Path, n: nat): Paths.Path {
    Paths.Join(tempDir, ClonePrefix + NatToString(n))
  }

  lemma CloneDirSegment(tempDir: Paths.Path, n: nat)
    ensures CloneDir(tempDir, n) == Paths.Path(tempDir.absolute, tempDir.segments + [ClonePrefix + NatToString(n)])
  {
    var name := ClonePrefix + NatToString(n);
    assert '/' !in name by {
      assert forall k :: 6 <= k < |name| ==> name[k] == NatToString(n)[k - 6];
    }
    assert name != "." by { assert |name| > 1; }
    Paths.JoinSegment(tempDir, name);
  }

  /** Different clone numbers give different directories. */
  lemma CloneDirInjective(tempDir: Paths.Path, n: nat, m: nat)
    ensures CloneDir(tempDir, n) == CloneDir(tempDir, m) <==> n == m
  {
    if CloneDir(tempDir, n) == CloneDir(tempDir, m) {
      CloneDirEqual(tempDir, n, m);
    }
  }

  lemma CloneDirEqual(tempDir: Paths.Path, n: nat, m: nat)
    requires CloneDir(tempDir, n) == CloneDir(tempDir, m)
    ensures n == m
  {
    CloneDirSegment(tempDir, n);
    CloneDirSegment(tempDir, m);
    var segs := CloneDir(tempDir, n).segments;
    assert segs[|segs| - 1] == ClonePrefix + NatToString(n) == ClonePrefix + NatToString(m);
    assert NatToString(n) == (ClonePrefix + NatToString(n))[6..];
    assert NatToString(m) == (ClonePrefix + NatToString(m))[6..];
    NatToStringInjective(n, m);
  }

  /**
   * The clone cache as a value: a hit gives the cached directory and
   * changes nothing; a miss takes the next clone number whether or not the
   * clone succeeds, and records the directory only when it does.
   */
  function CheckoutStep(clonedRepos: map<string, Paths.Path>, cloneCounter: int, tempDir: Paths.Path,
                        sshURL: string, revision: string, clone: (string, string, Paths.Path) -> bool)
    : (Option<Paths.Path>, map<string, Paths.Path>, int)
    requires cloneCounter >= 0
  {
    var key := CacheKey(sshURL, revision);
    if key in clonedRepos then (Some(clonedRepos[key]), clonedRepos, cloneCounter)
    else
      var dir := CloneDir(tempDir, cloneCounter + 1);
      if clone(sshURL, revision, dir) then (Some(dir), clonedRepos[key := dir], cloneCounter + 1)
      else (None, clonedRepos, cloneCounter + 1)
  }

  /** A cache hit does not clone: the result is the same whatever `clone` does. */
  lemma CacheHitSkipsClone(clonedRepos: map<string, Paths.Path>, cloneCounter: nat, tempDir: Paths.Path,
                           sshURL: string, revision: string, clone: (string, string, Paths.Path) -> bool,
                           other: (string, string, Paths.Path) -> bool)
    requires CacheKey(sshURL, revision) in clonedRepos
    ensures CheckoutStep(clonedRepos, cloneCounter, tempDir, sshURL, revision, clone)
            == CheckoutStep(clonedRepos, cloneCounter, tempDir, sshURL, revision, other)
            == (Some(clonedRepos[CacheKey(sshURL, revision)]), clonedRepos, cloneCounter)
  {
  }

  /**
   * A second checkout of the same URL and revision after a successful one
   * is a hit on the same directory; after a failed one it tries again in
   * a new directory.
   */
  lemma CheckoutTwice(clonedRepos: map<string, Paths.Path>, cloneCounter: nat, tempDir: Paths.Path,
                      sshURL: string, revision: string, clone: (string, string, Paths.Path) -> bool)
    ensures var first := CheckoutStep(clonedRepos, cloneCounter, tempDir, sshURL, revision, clone);
            first.2 >= 0 &&
            var second := CheckoutStep(first.1, first.2, tempDir, sshURL, revision, clone);
            && (first.0.Some? ==> second == first)
            && (first.0.None? ==> second.0 != Some(CloneDir(tempDir, cloneCounter + 1)) && second.2 == cloneCounter + 2)
  {
    CloneDirInjective(tempDir, cloneCounter + 1, cloneCounter + 2);
  }

  /** The cache only grows, keeps its entries, and takes at most one clone number. */
  lemma CheckoutGrows(clonedRepos: map<string, Paths.Path>, cloneCounter: nat, tempDir: Paths.Path,
                      sshURL: string, revision: string, clone: (string, string, Paths.Path) -> bool)
    ensures var r := CheckoutStep(clonedRepos, cloneCounter, tempDir, sshURL, revision, clone);
            && clonedRepos.Keys <= r.1.Keys
            && (forall k :: k in clonedRepos ==> r.1[k] == clonedRepos[k])
            && cloneCounter <= r.2 <= cloneCounter + 1
            && (r.0.None? <==> CacheKey(sshURL, revision) !in r.1)
  {
  }

  // ---------------------------------------------------------------------
  // Output location

  const EnvLabel: string := "env"
  const InstanceLabel: string := "instance"
  const ManifestSuffix: string := ".yaml"
  /** The chart directory inside a service directory. */
  const HelmDir: string := ".helm"
  /** The chart sub-path when the rawPath annotation is absent. */
  const CurrentDir: string := "."

  /** The output directory: outputDir, then the env label, then the instance label, each only when non-empty. */
  function OutputDir(outputDir: Paths.Path, labels: map<string, string>): Paths.Path {
    var env := Label(labels, EnvLabel);
    var instance := Label(labels, InstanceLabel);
    var withEnv := if env != "" then Paths.Join(outputDir, env) else outputDir;
    if instance != "" then Paths.Join(withEnv, instance) else withEnv
  }

  /** The manifest file: `<name>.yaml` in the output directory. */
  function OutputFile(outputDir: Paths.Path, labels: map<string, string>, name: string): Paths.Path {
    Paths.Join(OutputDir(outputDir, labels), name + ManifestSuffix)
  }

  predicate PlainSegment(s: string) {
    s != "" && s != "." && '/' !in s
  }

  function Optional(s: string): seq<string> {
    if s == "" then [] else [s]
  }

  /**
   * With labels and name that are plain segments, the manifest lands at
   * outputDir[/env][/instance]/<name>.yaml (so labels env=dev,
   * instance=inf1 and name n give outputDir/dev/inf1/n.yaml).
   */
  lemma OutputFileLayout(outputDir: Paths.Path, labels: map<string, string>, name: string)
    requires Label(labels, EnvLabel) == "" || PlainSegment(Label(labels, EnvLabel))
    requires Label(labels, InstanceLabel) == "" || PlainSegment(Label(labels, InstanceLabel))
    requires '/' !in name
    ensures OutputFile(outputDir, labels, name)
            == Paths.Path(outputDir.absolute, outputDir.segments + Optional(Label(labels, EnvLabel)) + Optional(Label(labels, InstanceLabel)) + [name + ManifestSuffix])
  {
    var env := Label(labels, EnvLabel);
    var instance := Label(labels, InstanceLabel);
    if env != "" { Paths.JoinSegment(outputDir, env); }
    var withEnv := if env != "" then Paths.Join(outputDir, env) else outputDir;
    if instance != "" { Paths.JoinSegment(withEnv, instance); }
    var file := name + ManifestSuffix;
    assert '/' !in file by {
      assert forall k :: 0 <= k < |name| ==> file[k] == name[k];
      assert file[|name|..] == ManifestSuffix;
    }
    assert file != "." && file != "" by { assert |file| >= 5; }
    Paths.JoinSegment(OutputDir(outputDir, labels), file);
  }

  /** An env-only label and an instance-only label of the same value share a directory. */
  lemma EnvAndInstanceShareLevel(outputDir: Paths.Path, value: string)
    requires PlainSegment(value)
    ensures OutputDir(outputDir, map[EnvLabel := value]) == OutputDir(outputDir, map[InstanceLabel := value])
  {
  }

  // ---------------------------------------------------------------------
  // processApplication

  datatype ProcessError =
    | MissingRawRepository
    | InvalidRepoUrl(url: string, cause: ConvertError)
    | CloneFailed
    | RenderFailed
    | MkdirFailed(dir: Paths.Path)
    | WriteFailed(file: Paths.Path)

  /** What processApplication settles before touching anything: the SSH URL and the chart sub-path. */
  datatype Checkout = Checkout(sshURL: string, chartSubPath: string)

  /**
   * The checks before any clone: a non-empty rawRepository annotation is
   * required (there is no fallback to the spec), a missing rawPath means
   * ".", and the URL must normalise.
   */
  function Prepare(app: RawApplication, normalize: string -> Result<string, ConvertError>): Result<Checkout, ProcessError> {
    var ann := app.metadata.annotations;
    if RepoAnnotation !in ann || ann[RepoAnnotation] == "" then Err(MissingRawRepository)
    else
      var chartSubPath := if PathAnnotation in ann then ann[PathAnnotation] else CurrentDir;
      match normalize(ann[RepoAnnotation])
      case Err(e) => Err(InvalidRepoUrl(ann[RepoAnnotation], e))
      case Ok(ssh) => Ok(Checkout(ssh, chartSubPath))
  }

  /** Unlike the parser, processApplication uses neither spec.source.repoURL nor spec.source.path. */
  lemma PrepareIgnoresSpec(app: RawApplication, normalize: string -> Result<string, ConvertError>)
    ensures RepoAnnotation !in app.metadata.annotations ==> Prepare(app, normalize) == Err(MissingRawRepository)
    ensures Prepare(app, normalize).Ok? && PathAnnotation !in app.metadata.annotations ==> Prepare(app, normalize).value.chartSubPath == CurrentDir
  {
  }

  /** The files given to helm: each values file joined to the service directory, in order. */
  function AbsoluteValuesFiles(servicePath: Paths.Path, files: seq<string>): (r: seq<string>)
    ensures |r| == |files|
  {
    seq(|files|, i requires 0 <= i < |files| => Paths.ToString(Paths.Join(servicePath, files[i])))
  }

  /** The helm options for an Application checked out at `repoPath`. */
  function RenderOptionsFor(app: RawApplication, repoPath: Paths.Path, chartSubPath: string, files: seq<string>): RenderOptions {
    var servicePath := Paths.Join(repoPath, chartSubPath);
    RenderOptions(app.metadata.name, Paths.ToString(Paths.Join(servicePath, HelmDir)),
                  AbsoluteValuesFiles(servicePath, files), Setters(PluginEnv(app), true))
  }

  /**
   * The chart is `repoPath/chartSubPath/.helm`, each values file is taken
   * relative to `repoPath/chartSubPath` in the same order, and the release
   * is the Application's name.
   */
  lemma RenderOptionsLayout(app: RawApplication, repoPath: Paths.Path, chartSubPath: string, files: seq<string>, i: nat)
    requires i < |files|
    ensures var opts := RenderOptionsFor(app, repoPath, chartSubPath, files);
            && opts.releaseName == app.metadata.name
            && opts.chartPath == Paths.ToString(Paths.Join(repoPath, chartSubPath + "/" + HelmDir))
            && |opts.valuesFiles| == |files|
            && opts.valuesFiles[i] == Paths.ToString(Paths.Join(repoPath, chartSubPath + "/" + files[i]))
  {
    Paths.JoinTwice(repoPath, chartSubPath, HelmDir);
    Paths.JoinTwice(repoPath, chartSubPath, files[i]);
  }

  /** What is left after the checkout: render, create the directory, write the manifest. */
  function Finish(outputDir: Paths.Path, app: RawApplication, repoPath: Paths.Path, chartSubPath: string, files: seq<string>,
                  render: RenderOptions -> Option<string>, mkdir: Paths.Path -> bool, write: (Paths.Path, string) -> bool): Option<ProcessError>
  {
    match render(RenderOptionsFor(app, repoPath, chartSubPath, files))
    case None => Some(RenderFailed)
    case Some(manifest) =>
      var dir := OutputDir(outputDir, app.metadata.labels);
      if !mkdir(dir) then Some(MkdirFailed(dir))
      else
        var file := OutputFile(outputDir, app.metadata.labels, app.metadata.name);
        if !write(file, manifest) then Some(WriteFailed(file)) else None
  }

  /** Finish succeeds exactly when helm renders, the directory is made and the manifest is written. */
  lemma FinishSucceeds(outputDir: Paths.Path, app: RawApplication, repoPath: Paths.Path, chartSubPath: string, files: seq<string>,
                       render: RenderOptions -> Option<string>, mkdir: Paths.Path -> bool, write: (Paths.Path, string) -> bool)
    ensures var opts := RenderOptionsFor(app, repoPath, chartSubPath, files);
            Finish(outputDir, app, repoPath, chartSubPath, files, render, mkdir, write).None?
            <==> (&& render(opts).Some?
                  && mkdir(OutputDir(outputDir, app.metadata.labels))
                  && write(OutputFile(outputDir, app.metadata.labels, app.metadata.name), render(opts).value))
  {
  }

  /** What processing one Application yields: its error, if any, and the new clone cache. */
  datatype Outcome = Outcome(err: Option<ProcessError>, clonedRepos: map<string, Paths.Path>, cloneCounter: int)

  /** processApplication as a value: Prepare, the checkout, then Finish with the checked-out directory. */
  function ProcessStep(clonedRepos: map<string, Paths.Path>, cloneCounter: int, tempDir: Paths.Path, outputDir: Paths.Path,
                       app: RawApplication, files: seq<string>, normalize: string -> Result<string, ConvertError>,
                       clone: (string, string, Paths.Path) -> bool, render: RenderOptions -> Option<string>,
                       mkdir: Paths.Path -> bool, write: (Paths.Path, string) -> bool): Outcome
    requires cloneCounter >= 0
  {
    match Prepare(app, normalize)
    case Err(e) => Outcome(Some(e), clonedRepos, cloneCounter)
    case Ok(c) =>
      var (repoPath, repos, counter) := CheckoutStep(clonedRepos, cloneCounter, tempDir, c.sshURL, app.source.targetRevision, clone);
      match repoPath
      case None => Outcome(Some(CloneFailed), repos, counter)
      case Some(dir) => Outcome(Finish(outputDir, app, dir, c.chartSubPath, files, render, mkdir, write), repos, counter)
  }

  /**
   * An Application that fails its checks touches neither the cache nor
   * the file system; any other one grows the cache like a checkout.
   */
  lemma ProcessStepCache(clonedRepos: map<string, Paths.Path>, cloneCounter: nat, tempDir: Paths.Path, outputDir: Paths.Path,
                         app: RawApplication, files: seq<string>, normalize: string -> Result<string, ConvertError>,
                         clone: (string, string, Paths.Path) -> bool, render: RenderOptions -> Option<string>,
                         mkdir: Paths.Path -> bool, write: (Paths.Path, string) -> bool)
    ensures var o := ProcessStep(clonedRepos, cloneCounter, tempDir, outputDir, app, files, normalize, clone, render, mkdir, write);
            && (Prepare(app, normalize).Err? ==> o == Outcome(Some(Prepare(app, normalize).error), clonedRepos, cloneCounter))
            && clonedRepos.Keys <= o.clonedRepos.Keys
            && (forall k :: k in clonedRepos ==> o.clonedRepos[k] == clonedRepos[k])
            && cloneCounter <= o.cloneCounter <= cloneCounter + 1
  {
    if Prepare(app, normalize).Ok? {
      var c := Prepare(app, normalize).value;
      CheckoutGrows(clonedRepos, cloneCounter, tempDir, c.sshURL, app.source.targetRevision, clone);
    }
  }

  /** The loop that joins each values file onto the service directory, into a fresh array. */
  method AbsolutePaths(servicePath: Paths.Path, files: seq<string>) returns (r: seq<string>)
    ensures r == AbsoluteValuesFiles(servicePath, files)
  {
    var a := new string[|files|];
    var i := 0;
    while i < |files|
      invariant 0 <= i <= |files|
      invariant forall k :: 0 <= k < i ==> a[k] == Paths.ToString(Paths.Join(servicePath, files[k]))
    {
      a[i] := Paths.ToString(Paths.Join(servicePath, files[i]));
      i := i + 1;
    }
    r := a[..];
  }


  /**
   * The second half of processApplication: the chart and values-file
   * paths in the checked-out repository, helm, the output directory and
   * the manifest file.
   */
  method RenderAndWrite(outputDir: Paths.Path, app: RawApplication, repoPath: Paths.Path, chartSubPath: string,
                        valuesFiles: seq<string>, setValues: map<string, string>,
                        render: RenderOptions -> Option<string>, mkdir: Paths.Path -> bool, write: (Paths.Path, string) -> bool)
    returns (err: Option<ProcessError>)
    requires setValues == Setters(PluginEnv(app), true)
    ensures err == Finish(outputDir, app, repoPath, chartSubPath, valuesFiles, render, mkdir, write)
  {
    var servicePath := Paths.Join(repoPath, chartSubPath);
    var chartPath := Paths.Join(servicePath, HelmDir);
    var absoluteValuesFiles := AbsolutePaths(servicePath, valuesFiles);
    var opts := RenderOptions(app.metadata.name, Paths.ToString(chartPath), absoluteValuesFiles, setValues);
    assert opts == RenderOptionsFor(app, repoPath, chartSubPath, valuesFiles);
    var rendered := render(opts);
    if rendered.None? {
      return Some(RenderFailed);
    }

    var finalOutputDir := outputDir;
    var envLabel := Label(app.metadata.labels, EnvLabel);
    if envLabel != "" {
      finalOutputDir := Paths.Join(finalOutputDir, envLabel);
    }
    var instanceLabel := Label(app.metadata.labels, InstanceLabel);
    if instanceLabel != "" {
      finalOutputDir := Paths.Join(finalOutputDir, instanceLabel);
    }
    if !mkdir(finalOutputDir) {
      return Some(MkdirFailed(finalOutputDir));
    }
    var outputFile := Paths.Join(finalOutputDir, app.metadata.name + ManifestSuffix);
    if !write(outputFile, rendered.value) {
      return Some(WriteFailed(outputFile));
    }
    return None;
  }

  /** The renderer's state: where clones go, where manifests go, and the clone cache. */
  class AppState {
    const tempDir: Paths.Path
    const outputDir: Paths.Path
    var clonedRepos: map<string, Paths.Path>
    var cloneCounter: int
    /** The clone number each cached directory was made with. */
    ghost var cloneNumbers: map<string, nat>

    /**
     * Every cached key points at `tempDir/clone-n` for its own number n
     * between 1 and the counter; numbers are never reused.
     */
    ghost predicate Valid()
      reads this
    {
      && cloneCounter >= 0
      && clonedRepos.Keys == cloneNumbers.Keys
      && (forall k :: k in clonedRepos ==> 1 <= cloneNumbers[k] <= cloneCounter && clonedRepos[k] == CloneDir(tempDir, cloneNumbers[k]))
      && (forall k1, k2 :: k1 in cloneNumbers && k2 in cloneNumbers && k1 != k2 ==> cloneNumbers[k1] != cloneNumbers[k2])
    }

    constructor (tempDir: Paths.Path, outputDir: Paths.Path)
      ensures Valid()
      ensures this.tempDir == tempDir && this.outputDir == outputDir
      ensures clonedRepos == map[] && cloneCounter == 0
    {
      this.tempDir := tempDir;
      this.outputDir := outputDir;
      clonedRepos := map[];
      cloneCounter := 0;
      cloneNumbers := map[];
    }

    /** Two cached checkouts never share a directory. */
    lemma DistinctDirectories(k1: string, k2: string)
      requires Valid() && k1 in clonedRepos && k2 in clonedRepos && k1 != k2
      ensures clonedRepos[k1] != clonedRepos[k2]
    {
      CloneDirInjective(tempDir, cloneNumbers[k1], cloneNumbers[k2]);
    }

    /**
     * The clone cache: a hit returns the cached directory and changes
     * nothing; a miss takes the next clone number, even when the clone then
     * fails, and records the directory only when the clone succeeds.
     */
    method CheckoutRepo(sshURL: string, revision: string, clone: (string, string, Paths.Path) -> bool) returns (repoPath: Option<Paths.Path>)
      requires Valid()
      modifies this
      ensures Valid()
      ensures (repoPath, clonedRepos, cloneCounter) == CheckoutStep(old(clonedRepos), old(cloneCounter), tempDir, sshURL, revision, clone)
    {
      var key := CacheKey(sshURL, revision);
      if key in clonedRepos {
        return Some(clonedRepos[key]);
      }
      cloneCounter := cloneCounter + 1;
      var dir := CloneDir(tempDir, cloneCounter);
      if !clone(sshURL, revision, dir) {
        return None;
      }
      forall k | k in cloneNumbers
        ensures cloneNumbers[k] != cloneCounter
      {
      }
      clonedRepos := clonedRepos[key := dir];
      cloneNumbers := cloneNumbers[key := cloneCounter];
      return Some(dir);
    }

    /**
     * processApplication: plugin env, the checks of Prepare, the clone
     * cache, then Finish.  `files` is the values-file order the sort
     * produced.
     */
    method ProcessApplication(app: RawApplication, normalize: string -> Result<string, ConvertError>,
                              clone: (string, string, Paths.Path) -> bool, render: RenderOptions -> Option<string>,
                              mkdir: Paths.Path -> bool, write: (Paths.Path, string) -> bool)
      returns (err: Option<ProcessError>, ghost files: seq<string>)
      requires Valid()
      modifies this
      ensures Valid()
      ensures ValuesFilesOf(PluginEnv(app), files)
      ensures Outcome(err, clonedRepos, cloneCounter)
              == ProcessStep(old(clonedRepos), old(cloneCounter), tempDir, outputDir, app, files, normalize, clone, render, mkdir, write)
    {
      var env := PluginEnv(app);
      var setValues: map<string, string> := map[];
      var valuesFiles: seq<string> := [];
      files := [];
      if app.source.plugin.Some? {
        ghost var order;
        setValues, valuesFiles, order := ProcessPluginEnv(env);
        files := valuesFiles;
      } else {
        assert Indexed(env) == [];
        assert SortedArrangement([], Indexed(env)) && files == FilePaths([]);
        assert setValues == Setters(env, true);
      }

      var ann := app.metadata.annotations;
      if RepoAnnotation !in ann || ann[RepoAnnotation] == "" {
        return Some(MissingRawRepository), files;
      }
      var repoURL := ann[RepoAnnotation];
      var chartSubPath := CurrentDir;
      if PathAnnotation in ann {
        chartSubPath := ann[PathAnnotation];
      }
      var sshURL := normalize(repoURL);
      if sshURL.Err? {
        return Some(InvalidRepoUrl(repoURL, sshURL.error)), files;
      }

      assert Prepare(app, normalize) == Ok(Checkout(sshURL.value, chartSubPath));
      var repoPath := CheckoutRepo(sshURL.value, app.source.targetRevision, clone);
      if repoPath.None? {
        return Some(CloneFailed), files;
      }

      err := RenderAndWrite(outputDir, app, repoPath.value, chartSubPath, valuesFiles, setValues, render, mkdir, write);
    }
  }

  /** The (name, error) pairs Run logs: one per failed Application, in order. */
  function Failures(apps: seq<RawApplication>, outcomes: seq<Option<ProcessError>>): seq<(string, ProcessError)>
    requires |outcomes| == |apps|
    decreases |apps|
  {
    if apps == [] then []
    else
      var init := Failures(apps[..|apps| - 1], outcomes[..|outcomes| - 1]);
      match outcomes[|outcomes| - 1]
      case None => init
      case Some(e) => init + [(apps[|apps| - 1].metadata.name, e)]
  }

  lemma FailuresStep(apps: seq<RawApplication>, outcomes: seq<Option<ProcessError>>, app: RawApplication, err: Option<ProcessError>)
    requires |outcomes| == |apps|
    ensures Failures(apps + [app], outcomes + [err])
            == Failures(apps, outcomes) + (if err.Some? then [(app.metadata.name, err.value)] else [])
  {
    assert (apps + [app])[..|apps|] == apps;
    assert (outcomes + [err])[..|outcomes|] == outcomes;
  }

  /** Run's loop over values: the outcome of each Application and the cache it leaves. */
  datatype RunResult = RunResult(errs: seq<Option<ProcessError>>, clonedRepos: map<string, Paths.Path>, cloneCounter: int)

  /**
   * ProcessStep folded over `apps` from left to right: each Application is
   * processed with the cache the ones before it left, whatever they
   * returned, and `filesOf[i]` is the values-file list of `apps[i]`.
   */
  function RunSteps(clonedRepos: map<string, Paths.Path>, cloneCounter: nat, tempDir: Paths.Path, outputDir: Paths.Path,
                    apps: seq<RawApplication>, filesOf: seq<seq<string>>, normalize: string -> Result<string, ConvertError>,
                    clone: (string, string, Paths.Path) -> bool, render: RenderOptions -> Option<string>,
                    mkdir: Paths.Path -> bool, write: (Paths.Path, string) -> bool): (r: RunResult)
    requires |filesOf| == |apps|
    ensures |r.errs| == |apps|
    ensures clonedRepos.Keys <= r.clonedRepos.Keys
    ensures forall k :: k in clonedRepos ==> r.clonedRepos[k] == clonedRepos[k]
    ensures cloneCounter <= r.cloneCounter <= cloneCounter + |apps|
    decreases |apps|
  {
    if apps == [] then RunResult([], clonedRepos, cloneCounter)
    else
      var n := |apps| - 1;
      var before := RunSteps(clonedRepos, cloneCounter, tempDir, outputDir, apps[..n], filesOf[..n], normalize, clone, render, mkdir, write);
      ProcessStepCache(before.clonedRepos, before.cloneCounter, tempDir, outputDir, apps[n], filesOf[n], normalize, clone, render, mkdir, write);
      var o := ProcessStep(before.clonedRepos, before.cloneCounter, tempDir, outputDir, apps[n], filesOf[n], normalize, clone, render, mkdir, write);
      RunResult(before.errs + [o.err], o.clonedRepos, o.cloneCounter)
  }

  /** One more Application is processed from the cache the others left. */
  lemma RunStepsAppend(clonedRepos: map<string, Paths.Path>, cloneCounter: nat, tempDir: Paths.Path, outputDir: Paths.Path,
                       apps: seq<RawApplication>, filesOf: seq<seq<string>>, normalize: string -> Result<string, ConvertError>,
                       clone: (string, string, Paths.Path) -> bool, render: RenderOptions -> Option<string>,
                       mkdir: Paths.Path -> bool, write: (Paths.Path, string) -> bool, app: RawApplication, files: seq<string>,
                       before: RunResult, after: Outcome)
    requires |filesOf| == |apps|
    requires before == RunSteps(clonedRepos, cloneCounter, tempDir, outputDir, apps, filesOf, normalize, clone, render, mkdir, write)
    requires before.cloneCounter >= 0
    requires after == ProcessStep(before.clonedRepos, before.cloneCounter, tempDir, outputDir, app, files, normalize, clone, render, mkdir, write)
    ensures RunSteps(clonedRepos, cloneCounter, tempDir, outputDir, apps + [app], filesOf + [files], normalize, clone, render, mkdir, write)
            == RunResult(before.errs + [after.err], after.clonedRepos, after.cloneCounter)
  {
    assert (apps + [app])[..|apps|] == apps && (filesOf + [files])[..|apps|] == filesOf;
  }


  /** `filesOf[i]` is a values-file list the environment of `apps[i]` yields, for every i. */
  ghost predicate FilesFit(apps: seq<RawApplication>, filesOf: seq<seq<string>>)
    decreases |apps|
  {
    && |filesOf| == |apps|
    && (apps != [] ==>
          && FilesFit(apps[..|apps| - 1], filesOf[..|apps| - 1])
          && ValuesFilesOf(PluginEnv(apps[|apps| - 1]), filesOf[|apps| - 1]))
  }

  lemma FilesFitAppend(apps: seq<RawApplication>, filesOf: seq<seq<string>>, app: RawApplication, files: seq<string>)
    requires FilesFit(apps, filesOf) && ValuesFilesOf(PluginEnv(app), files)
    ensures FilesFit(apps + [app], filesOf + [files])
  {
    assert (apps + [app])[..|apps|] == apps && (filesOf + [files])[..|apps|] == filesOf;
  }

  /** FilesFit read position by position. */
  lemma {:induction false} FilesFitAt(apps: seq<RawApplication>, filesOf: seq<seq<string>>, i: nat)
    requires FilesFit(apps, filesOf) && i < |apps|
    ensures ValuesFilesOf(PluginEnv(apps[i]), filesOf[i])
    decreases |apps|
  {
    var n := |apps| - 1;
    if i < n {
      FilesFitAt(apps[..n], filesOf[..n], i);
      assert apps[..n][i] == apps[i] && filesOf[..n][i] == filesOf[i];
    }
  }


  /** Running a prefix of the Applications gives the prefix of the outcomes. */
  lemma {:induction false} RunStepsPrefix(clonedRepos: map<string, Paths.Path>, cloneCounter: nat, tempDir: Paths.Path, outputDir: Paths.Path,
                                          apps: seq<RawApplication>, filesOf: seq<seq<string>>, normalize: string -> Result<string, ConvertError>,
                                          clone: (string, string, Paths.Path) -> bool, render: RenderOptions -> Option<string>,
                                          mkdir: Paths.Path -> bool, write: (Paths.Path, string) -> bool, m: nat)
    requires |filesOf| == |apps| && m <= |apps|
    ensures RunSteps(clonedRepos, cloneCounter, tempDir, outputDir, apps[..m], filesOf[..m], normalize, clone, render, mkdir, write).errs
            == RunSteps(clonedRepos, cloneCounter, tempDir, outputDir, apps, filesOf, normalize, clone, render, mkdir, write).errs[..m]
    decreases |apps|
  {
    if m < |apps| {
      var n := |apps| - 1;
      assert apps[..n][..m] == apps[..m] && filesOf[..n][..m] == filesOf[..m];
      RunStepsPrefix(clonedRepos, cloneCounter, tempDir, outputDir, apps[..n], filesOf[..n], normalize, clone, render, mkdir, write, m);
    } else {
      assert apps[..m] == apps && filesOf[..m] == filesOf;
    }
  }

  /**
   * The i-th outcome is ProcessStep of the i-th Application from the cache
   * the first i left: a failure is recorded and the loop goes on.
   */
  lemma RunStepsAt(clonedRepos: map<string, Paths.Path>, cloneCounter: nat, tempDir: Paths.Path, outputDir: Paths.Path,
                   apps: seq<RawApplication>, filesOf: seq<seq<string>>, normalize: string -> Result<string, ConvertError>,
                   clone: (string, string, Paths.Path) -> bool, render: RenderOptions -> Option<string>,
                   mkdir: Paths.Path -> bool, write: (Paths.Path, string) -> bool, i: nat)
    requires |filesOf| == |apps| && i < |apps|
    ensures var before := RunSteps(clonedRepos, cloneCounter, tempDir, outputDir, apps[..i], filesOf[..i], normalize, clone, render, mkdir, write);
            && cloneCounter <= before.cloneCounter
            && RunSteps(clonedRepos, cloneCounter, tempDir, outputDir, apps, filesOf, normalize, clone, render, mkdir, write).errs[i]
               == ProcessStep(before.clonedRepos, before.cloneCounter, tempDir, outputDir, apps[i], filesOf[i], normalize, clone, render, mkdir, write).err
  {
    RunStepsPrefix(clonedRepos, cloneCounter, tempDir, outputDir, apps, filesOf, normalize, clone, render, mkdir, write, i + 1);
    assert apps[..i + 1][..i] == apps[..i] && filesOf[..i + 1][..i] == filesOf[..i];
    assert apps[..i + 1][i] == apps[i] && filesOf[..i + 1][i] == filesOf[i];
  }

  /** The prefix one longer is the prefix and the next element. */
  lemma PrefixNext<T>(s: seq<T>, i: nat)
    requires i < |s|
    ensures s[..i + 1] == s[..i] + [s[i]]
  {
  }

  /**
   * One turn of Run's loop: the next Application is processed, its failure
   * (if any) logged, and the outcomes, the cache and the values-file lists
   * are those of RunSteps over the Applications done so far and this one.
   */
  method ProcessNext(state: AppState, done: seq<RawApplication>, app: RawApplication,
                     outcomes: seq<Option<ProcessError>>, logged: seq<(string, ProcessError)>, ghost filesOf: seq<seq<string>>,
                     ghost repos0: map<string, Paths.Path>, ghost counter0: nat,
                     normalize: string -> Result<string, ConvertError>,
                     clone: (string, string, Paths.Path) -> bool, render: RenderOptions -> Option<string>,
                     mkdir: Paths.Path -> bool, write: (Paths.Path, string) -> bool)
    returns (outcomes': seq<Option<ProcessError>>, logged': seq<(string, ProcessError)>, ghost filesOf': seq<seq<string>>)
    requires state.Valid()
    requires |outcomes| == |done| && FilesFit(done, filesOf)
    requires logged == Failures(done, outcomes)
    requires RunResult(outcomes, state.clonedRepos, state.cloneCounter)
             == RunSteps(repos0, counter0, state.tempDir, state.outputDir, done, filesOf, normalize, clone, render, mkdir, write)
    modifies state
    ensures state.Valid()
    ensures |outcomes'| == |done| + 1 && FilesFit(done + [app], filesOf')
    ensures logged' == Failures(done + [app], outcomes')
    ensures RunResult(outcomes', state.clonedRepos, state.cloneCounter)
            == RunSteps(repos0, counter0, state.tempDir, state.outputDir, done + [app], filesOf', normalize, clone, render, mkdir, write)
  {
    ghost var before := RunResult(outcomes, state.clonedRepos, state.cloneCounter);
    var err;
    ghost var files;
    err, files := state.ProcessApplication(app, normalize, clone, render, mkdir, write);
    RunStepsAppend(repos0, counter0, state.tempDir, state.outputDir, done, filesOf, normalize, clone, render, mkdir, write,
                   app, files, before, Outcome(err, state.clonedRepos, state.cloneCounter));
    FailuresStep(done, outcomes, app, err);
    FilesFitAppend(done, filesOf, app, files);
    logged' := if err.Some? then logged + [(app.metadata.name, err.value)] else logged;
    outcomes' := outcomes + [err];
    filesOf' := filesOf + [files];
  }

  /**
   * Run's loop: every Application is processed in turn; a failure is
   * logged and the loop goes on with the next one.  Outcomes and the final
   * cache are RunSteps of the Applications from the cache it starts with.
   */
  method ProcessAll(state: AppState, apps: seq<RawApplication>, normalize: string -> Result<string, ConvertError>,
                    clone: (string, string, Paths.Path) -> bool, render: RenderOptions -> Option<string>,
                    mkdir: Paths.Path -> bool, write: (Paths.Path, string) -> bool)
    returns (outcomes: seq<Option<ProcessError>>, logged: seq<(string, ProcessError)>, ghost filesOf: seq<seq<string>>)
    requires state.Valid()
    modifies state
    ensures state.Valid()
    ensures FilesFit(apps, filesOf)
    ensures RunResult(outcomes, state.clonedRepos, state.cloneCounter)
            == RunSteps(old(state.clonedRepos), old(state.cloneCounter), state.tempDir, state.outputDir, apps, filesOf,
                        normalize, clone, render, mkdir, write)
    ensures |outcomes| == |apps|
    ensures logged == Failures(apps, outcomes)
    ensures old(state.clonedRepos).Keys <= state.clonedRepos.Keys
    ensures forall k :: k in old(state.clonedRepos) ==> state.clonedRepos[k] == old(state.clonedRepos)[k]
    ensures old(state.cloneCounter) <= state.cloneCounter <= old(state.cloneCounter) + |apps|
  {
    outcomes := [];
    logged := [];
    filesOf := [];
    ghost var repos0: map<string, Paths.Path>, counter0: nat := state.clonedRepos, state.cloneCounter;
    var i := 0;
    while i < |apps|
      invariant 0 <= i <= |apps|
      invariant state.Valid()
      invariant |outcomes| == i && FilesFit(apps[..i], filesOf)
      invariant logged == Failures(apps[..i], outcomes)
      invariant RunResult(outcomes, state.clonedRepos, state.cloneCounter)
                == RunSteps(repos0, counter0, state.tempDir, state.outputDir, apps[..i], filesOf, normalize, clone, render, mkdir, write)
    {
      PrefixNext(apps, i);
      outcomes, logged, filesOf := ProcessNext(state, apps[..i], apps[i], outcomes, logged, filesOf, repos0, counter0,
                                               normalize, clone, render, mkdir, write);
      i := i + 1;
    }
    assert apps[..i] == apps;
  }

  /** The converter Run hands to the loop: convertHTTPtoSSH with the given URL parser. */
  function Converter(parse: UrlParser): string -> Result<string, ConvertError> {
    (u: string) => ConvertHttpToSsh(u, parse)
  }

  /** Run after its set-up: a fresh state over the given directories, then the loop with convertHTTPtoSSH. */
  method Run(tempDir: Paths.Path, outputDir: Paths.Path, apps: seq<RawApplication>, parse: UrlParser,
             clone: (string, string, Paths.Path) -> bool, render: RenderOptions -> Option<string>,
             mkdir: Paths.Path -> bool, write: (Paths.Path, string) -> bool)
    returns (state: AppState, outcomes: seq<Option<ProcessError>>, logged: seq<(string, ProcessError)>, ghost filesOf: seq<seq<string>>)
    ensures fresh(state) && state.Valid()
    ensures FilesFit(apps, filesOf)
    ensures RunResult(outcomes, state.clonedRepos, state.cloneCounter)
            == RunSteps(map[], 0, tempDir, outputDir, apps, filesOf, Converter(parse), clone, render, mkdir, write)
    ensures |outcomes| == |apps| && logged == Failures(apps, outcomes)
    ensures state.cloneCounter <= |apps|
  {
    state := new AppState(tempDir, outputDir);
    outcomes, logged, filesOf := ProcessAll(state, apps, Converter(parse), clone, render, mkdir, write);
  }

}
