/**
 * File-system paths as the renderer builds them with filepath.Join: an
 * absolute flag and a list of segments.  Joining drops empty and "."
 * segments, as filepath.Clean does; ".." is kept as an ordinary segment.
 */
module Paths {
  import opened Strings

  datatype Path = Path(absolute: bool, segments: seq<string>)

  /** The segments of a relative text: its '/'-separated parts that are neither empty nor ".". */
  function Clean(parts: seq<string>): (r: seq<string>)
    decreases |parts|
    ensures forall k :: 0 <= k < |r| ==> r[k] != "" && r[k] != "." && r[k] in parts
  {
    if parts == [] then []
    else if parts[0] == "" || parts[0] == "." then Clean(parts[1..])
    else [parts[0]] + Clean(parts[1..])
  }

  function Segments(rel: string): seq<string> {
    Clean(Split(rel, '/'))
  }

  /** filepath.Join(base, rel). */
  function Join(base: Path, rel: string): Path {
    Path(base.absolute, base.segments + Segments(rel))
  }

  /** A segment list with no empty, "." or '/'-holding segment. */
  predicate CleanSegments(segs: seq<string>) {
    forall k :: 0 <= k < |segs| ==> segs[k] != "" && segs[k] != "." && '/' !in segs[k]
  }

  /** The text of a path, as filepath prints it; "." for the empty relative path. */
  function ToString(p: Path): string {
    if p.segments == [] then (if p.absolute then "/" else ".")
    else (if p.absolute then "/" else "") + Strings.Join(p.segments, '/')
  }

  /** A path read back from text: absolute iff it starts with '/'. */
  function FromString(s: string): Path {
    Path(HasPrefix(s, "/"), Segments(s))
  }

  lemma {:induction false} CleanAppend(x: seq<string>, y: seq<string>)
    ensures Clean(x + y) == Clean(x) + Clean(y)
    decreases |x|
  {
    if x == [] {
      assert x + y == y;
    } else {
      assert (x + y)[1..] == x[1..] + y;
      CleanAppend(x[1..], y);
    }
  }

  lemma {:induction false} CleanOfClean(segs: seq<string>)
    requires CleanSegments(segs)
    ensures Clean(segs) == segs
    decreases |segs|
  {
    if segs != [] {
      CleanOfClean(segs[1..]);
    }
  }

  /** Joining one plain segment appends it. */
  lemma JoinSegment(base: Path, name: string)
    requires name != "" && name != "." && '/' !in name
    ensures Join(base, name) == Path(base.absolute, base.segments + [name])
  {
    SplitNone(name, '/');
    assert [name][1..] == [];
    assert Clean([name]) == [name] + Clean([]);
    assert Segments(name) == [name];
  }

  /** Joining "." changes nothing. */
  lemma JoinDot(base: Path)
    ensures Join(base, ".") == base
  {
    SplitNone(".", '/');
  }

  /** Joining in two steps is joining the two texts with a '/' between them. */
  lemma JoinTwice(base: Path, x: string, y: string)
    ensures Join(Join(base, x), y) == Join(base, x + "/" + y)
  {
    assert x + "/" + y == x + ['/'] + y;
    SplitConcat(x, '/', y);
    CleanAppend(Split(x, '/'), Split(y, '/'));
    assert Segments(x + "/" + y) == Segments(x) + Segments(y);
    assert (base.segments + Segments(x)) + Segments(y) == base.segments + (Segments(x) + Segments(y));
  }

  /** Printing a clean path and reading it back gives the path. */
  lemma FromToString(p: Path)
    requires CleanSegments(p.segments)
    ensures FromString(ToString(p)) == p
  {
    var s := ToString(p);
    if p.segments == [] {
      if p.absolute {
        assert "/" == "" + ['/'] + "";
        SplitCons("", '/', "");
        SplitNone("", '/');
      } else {
        SplitNone(".", '/');
      }
    } else {
      var text := Strings.Join(p.segments, '/');
      SplitJoin(p.segments, '/');
      CleanOfClean(p.segments);
      JoinStarts(p.segments);
      if p.absolute {
        assert s == "" + ['/'] + text;
        SplitCons("", '/', text);
        assert Split(s, '/') == [""] + p.segments;
      } else {
        assert s == text;
        assert s[0] == p.segments[0][0];
      }
    }
  }

  lemma JoinStarts(segs: seq<string>)
    requires segs != [] && segs[0] != ""
    ensures Strings.Join(segs, '/') != "" && Strings.Join(segs, '/')[0] == segs[0][0]
  {
  }

  /**
   * Join is filepath.Join's rule "concatenate with '/' and clean": for a
   * clean base, joining `rel` is reading back the text `base + "/" + rel`.
   */
  lemma JoinIsCleanConcat(base: Path, rel: string)
    requires CleanSegments(base.segments)
    ensures Join(base, rel) == FromString(ToString(base) + "/" + rel)
  {
    var t := ToString(base);
    FromToString(base);
    SplitConcat(t, '/', rel);
    CleanAppend(Split(t, '/'), Split(rel, '/'));
    assert t + "/" + rel == t + ['/'] + rel;
    assert t != "";
    assert HasPrefix(t + "/" + rel, "/") == HasPrefix(t, "/") by {
      assert (t + "/" + rel)[0] == t[0];
    }
  }
}
