/**
 * cmd/renderer/main.go: the earlier, single-file iteration of the renderer.
 * Its processApplication, processPluginEnv and main loop are those of
 * internal/app/app.go (the App module models them once); its
 * convertHTTPtoSSH differs: it has no shortcut for text already in
 * `git@host:path` form and always parses the URL first.
 */
module Renderer {
  import opened Wrappers
  import opened Strings
  import opened U = Url
  import Paths
  import opened Helm
  import opened Parser
  import App

  /** convertHTTPtoSSH of main.go: parse, keep a non-http(s) URL, rewrite an http(s) one. */
  function ConvertHttpToSsh(httpURL: string, parse: UrlParser): (r: Result<string, App.ConvertError>)
    ensures r.Err? <==> parse(httpURL).Err?
    ensures r.Err? ==> r.error == App.CouldNotParse(parse(httpURL).error)
    ensures r.Ok? ==> r.value == httpURL || HasPrefix(r.value, App.SshPrefix)
  {
    match parse(httpURL)
    case Err(e) => Err(App.CouldNotParse(e))
    case Ok(u) =>
      if u.scheme != "https" && u.scheme != "http" then Ok(httpURL)
      else Ok(App.SshPrefix + u.host + ":" + TrimPrefix(u.path, "/"))
  }

  /** On every input that does not start with `git@`, both iterations agree. */
  lemma AgreesWithApp(httpURL: string, parse: UrlParser)
    requires !HasPrefix(httpURL, App.SshPrefix)
    ensures ConvertHttpToSsh(httpURL, parse) == App.ConvertHttpToSsh(httpURL, parse)
  {
  }

  /**
   * With the reference parser, main.go rejects `git@host:path`: the colon
   * in the first path segment makes url.Parse fail (a host free of '?' and
   * '#', which url.Parse would cut off first).  app.go keeps it.
   */
  lemma RejectsScpLike(host: string, path: string)
    requires '/' !in host && ':' !in host && '?' !in host && '#' !in host
    ensures ConvertHttpToSsh(App.SshPrefix + host + ":" + path, ParseReference) == Err(App.CouldNotParse(ColonInFirstSegment))
    ensures App.ConvertHttpToSsh(App.SshPrefix + host + ":" + path, ParseReference) == Ok(App.SshPrefix + host + ":" + path)
  {
    var user := "git";
    assert App.SshPrefix + host + ":" + path == user + "@" + host + ":" + path;
    assert forall k :: 0 <= k < |user| ==> IsLetter(user[k]);
    ParseScpLike(user, host, path);
    var s := App.SshPrefix + host + ":" + path;
    assert s[..|App.SshPrefix|] == App.SshPrefix;
  }

  /**
   * main.go's conversion is not idempotent: an http(s) URL converts, but
   * its converted form does not convert again.
   */
  lemma NotIdempotent(scheme: string, host: string, path: string)
    requires scheme == "http" || scheme == "https"
    requires '/' !in host && '@' !in host && ':' !in host && '?' !in host + path && '#' !in host + path
    ensures ConvertHttpToSsh(scheme + "://" + host + "/" + path, ParseReference) == Ok(App.SshPrefix + host + ":" + path)
    ensures ConvertHttpToSsh(App.SshPrefix + host + ":" + path, ParseReference).Err?
  {
    var s := scheme + "://" + host + "/" + path;
    assert s[0] == 'h' && App.SshPrefix[0] == 'g';
    AgreesWithApp(s, ParseReference);
    App.ConvertReferenceHttp(scheme, host, path);
    RejectsScpLike(host, path);
  }

  /** The converter main hands to its loop: main.go's convertHTTPtoSSH with the given URL parser. */
  function Converter(parse: UrlParser): string -> Result<string, App.ConvertError> {
    (u: string) => ConvertHttpToSsh(u, parse)
  }

  /**
   * main's loop after its set-up: a fresh state, then every Application
   * in turn with main.go's converter, logging and skipping failures.
   */
  method RunMain(tempDir: Paths.Path, outputDir: Paths.Path, apps: seq<RawApplication>, parse: UrlParser,
                 clone: (string, string, Paths.Path) -> bool, render: RenderOptions -> Option<string>,
                 mkdir: Paths.Path -> bool, write: (Paths.Path, string) -> bool)
    returns (state: App.AppState, outcomes: seq<Option<App.ProcessError>>, logged: seq<(string, App.ProcessError)>,
             ghost filesOf: seq<seq<string>>)
    ensures fresh(state) && state.Valid()
    ensures App.FilesFit(apps, filesOf)
    ensures App.RunResult(outcomes, state.clonedRepos, state.cloneCounter)
            == App.RunSteps(map[], 0, tempDir, outputDir, apps, filesOf, Converter(parse), clone, render, mkdir, write)
    ensures |outcomes| == |apps| && logged == App.Failures(apps, outcomes)
    ensures state.cloneCounter <= |apps|
  {
    state := new App.AppState(tempDir, outputDir);
    outcomes, logged, filesOf := App.ProcessAll(state, apps, Converter(parse), clone, render, mkdir, write);
  }

}
