/**
 * The URL shape convertHTTPtoSSH reads (scheme, host, path), and a small
 * reference parser that follows net/url's scheme and authority rules closely
 * enough to instantiate the abstract `url.Parse` on the repository URLs the
 * renderer meets.  It is a subset: query, fragment, escapes, ports and host
 * validation are not modelled.
 */
module Url {
  import opened Wrappers
  import opened Strings

  datatype Url = Url(scheme: string, host: string, path: string)

  datatype UrlError = MissingProtocolScheme | ColonInFirstSegment

  /** `url.Parse` as the rest of the model sees it: any partial function from text to URLs. */
  type UrlParser = string -> Result<Url, UrlError>

  predicate IsLetter(c: char) { 'a' <= c <= 'z' || 'A' <= c <= 'Z' }

  /**
   * net/url's getScheme from position i on: letters extend the scheme,
   * digits, '+', '-' and '.' extend it except in first place, ':' ends it
   * (an error in first place), anything else means there is no scheme.
   */
  function SchemeFrom(s: string, i: nat): (r: Result<(string, string), UrlError>)
    requires i <= |s|
    requires forall k :: 0 <= k < i ==> s[k] != ':'
    decreases |s| - i
    ensures r.Ok? && r.value.0 != "" ==> s == r.value.0 + ":" + r.value.1 && ':' !in r.value.0
    ensures r.Ok? && r.value.0 == "" ==> r.value.1 == s
    ensures r.Err? <==> i == 0 && s != [] && s[0] == ':'
  {
    if i == |s| then Ok(("", s))
    else
      var c := s[i];
      if IsLetter(c) then SchemeFrom(s, i + 1)
      else if IsDigit(c) || c == '+' || c == '-' || c == '.' then
        if i == 0 then Ok(("", s)) else SchemeFrom(s, i + 1)
      else if c == ':' then
        if i == 0 then Err(MissingProtocolScheme)
        else
          assert s == s[..i] + ":" + s[i + 1..];
          Ok((s[..i], s[i + 1..]))
      else Ok(("", s))
  }

  function ToLower(s: string): (r: string)
    ensures |r| == |s|
  {
    seq(|s|, k requires 0 <= k < |s| => if 'A' <= s[k] <= 'Z' then (s[k] as int + 32) as char else s[k])
  }

  /** The part of `s` before its first '/'. */
  function FirstSegment(s: string): string {
    match Cut(s, "/")
    case None => s
    case Some(parts) => parts.0
  }

  /** Host of an authority: the text after the last '@' (the user information goes). */
  function HostOf(authority: string): (r: string)
    decreases |authority|
    ensures '@' !in r
  {
    if authority == [] then []
    else if authority[|authority| - 1] == '@' then []
    else HostOf(authority[..|authority| - 1]) + [authority[|authority| - 1]]
  }

  /**
   * The reference parser: the scheme, then an authority introduced by "//",
   * then the path.  Text with no scheme whose first path segment holds a
   * ':' is refused, as net/url refuses it.
   */
  function ParseReference(s: string): Result<Url, UrlError> {
    match SchemeFrom(s, 0)
    case Err(e) => Err(e)
    case Ok(parts) =>
      var scheme := ToLower(parts.0);
      var rest := parts.1;
      if scheme != "" && !HasPrefix(rest, "/") then Ok(Url(scheme, "", ""))
      else if scheme == "" && !HasPrefix(rest, "/") && ':' in FirstSegment(rest) then Err(ColonInFirstSegment)
      else if (scheme != "" || !HasPrefix(rest, "///")) && HasPrefix(rest, "//") then
        var afterSlashes := rest[2..];
        match Cut(afterSlashes, "/")
        case None => Ok(Url(scheme, HostOf(afterSlashes), ""))
        case Some(hp) => Ok(Url(scheme, HostOf(hp.0), "/" + hp.1))
      else Ok(Url(scheme, "", rest))
  }

  /** A scheme of lower-case letters followed by ':' is read as that scheme. */
  lemma {:induction false} SchemeOfLetters(scheme: string, rest: string, i: nat)
    requires scheme != [] && forall k :: 0 <= k < |scheme| ==> 'a' <= scheme[k] <= 'z'
    requires i <= |scheme|
    ensures forall k :: 0 <= k < i ==> (scheme + ":" + rest)[k] != ':'
    ensures SchemeFrom(scheme + ":" + rest, i) == Ok((scheme, rest))
    decreases |scheme| - i
  {
    var s := scheme + ":" + rest;
    assert forall k :: 0 <= k < |scheme| ==> s[k] == scheme[k];
    if i < |scheme| {
      SchemeOfLetters(scheme, rest, i + 1);
    } else {
      assert s[i] == ':';
      assert s[..i] == scheme;
      assert s[i + 1..] == rest;
    }
  }

  lemma ToLowerOfLower(s: string)
    requires forall k :: 0 <= k < |s| ==> 'a' <= s[k] <= 'z'
    ensures ToLower(s) == s
  {
  }

  /**
   * `scheme://host/path` with a lower-case scheme, a host without '/' or
   * '@', and no '?' or '#' (net/url would cut a query or a fragment off)
   * parses to that scheme, host and "/path".
   */
  lemma ParseHierarchical(scheme: string, host: string, path: string)
    requires scheme != [] && forall k :: 0 <= k < |scheme| ==> 'a' <= scheme[k] <= 'z'
    requires '/' !in host && '@' !in host && '?' !in host + path && '#' !in host + path
    ensures ParseReference(scheme + "://" + host + "/" + path) == Ok(Url(scheme, host, "/" + path))
  {
    var rest := "//" + host + "/" + path;
    assert scheme + "://" + host + "/" + path == scheme + ":" + rest;
    SchemeOfLetters(scheme, rest, 0);
    ToLowerOfLower(scheme);
    assert HasPrefix(rest, "/") && HasPrefix(rest, "//");
    assert rest[2..] == host + "/" + path;
    CutAtChar(host, '/', path);
    HostOfPlain(host);
  }

  lemma {:induction false} HostOfPlain(host: string)
    requires '@' !in host
    ensures HostOf(host) == host
    decreases |host|
  {
    if host != [] {
      HostOfPlain(host[..|host| - 1]);
    }
  }

  /** Text starting with ':' has no scheme and is refused. */
  lemma ParseMissingScheme(rest: string)
    ensures ParseReference(":" + rest) == Err(MissingProtocolScheme)
  {
  }

  /**
   * scp-like `user@host:path` text (letters before the '@', no '/' before
   * the ':', and no '?' or '#' there either, since net/url cuts the query
   * and the fragment first) has no scheme, and its first segment holds a
   * ':': refused.
   */
  lemma ParseScpLike(user: string, host: string, path: string)
    requires user != [] && forall k :: 0 <= k < |user| ==> IsLetter(user[k])
    requires '/' !in host && ':' !in host && '?' !in host && '#' !in host
    ensures ParseReference(user + "@" + host + ":" + path) == Err(ColonInFirstSegment)
  {
    var s := user + "@" + host + ":" + path;
    assert forall k :: 0 <= k < |user| ==> s[k] == user[k];
    SchemeLettersThenStop(s, |user|, 0);
    assert !HasPrefix(s, "/") by { assert s[0] == user[0]; }
    var seg := FirstSegment(s);
    assert ':' in seg by {
      var p := |user| + 1 + |host|;
      assert s[p] == ':';
      if Cut(s, "/").Some? {
        var parts := Cut(s, "/").value;
        assert s == parts.0 + "/" + parts.1;
        CutBeforeFree(s, '/');
        assert s[|parts.0|] == '/';
        assert forall k :: 0 <= k < p ==> k < |user| || k == |user| || s[k] == host[k - |user| - 1];
        assert |parts.0| > p;
        assert parts.0[p] == ':';
      }
    }
  }

  /** Letters up to position `stop`, then a character that is neither a scheme character nor ':': no scheme. */
  lemma {:induction false} SchemeLettersThenStop(s: string, stop: nat, i: nat)
    requires 0 < stop < |s| && i <= stop
    requires forall k :: 0 <= k < stop ==> IsLetter(s[k])
    requires s[stop] == '@'
    ensures forall k :: 0 <= k < i ==> s[k] != ':'
    ensures SchemeFrom(s, i) == Ok(("", s))
    decreases stop - i
  {
    if i < stop {
      SchemeLettersThenStop(s, stop, i + 1);
    }
  }
}
