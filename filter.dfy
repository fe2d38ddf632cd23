/**
 * Filters over raw YAML documents (internal/pkg/argo/filter.go): the
 * dot-path evaluator, the parser of `path==value` / `path!=value` strings,
 * and the evaluation of one criterion or of a list of criteria.
 */
module Filter {
  import opened Wrappers
  import opened Strings
  import opened Yaml

  datatype FilterCriteria = FilterCriteria(path: string, operator: string, value: string)

  datatype FilterError = OperatorNotFound(filter: string)

  // ---------------------------------------------------------------------
  // Dot-path evaluation

  /**
   * The value node of the first key/value pair, at an even position from
   * `i` on, whose key is `key`; a trailing key without a value is ignored.
   */
  function ValueAfterKey(content: seq<Node>, key: string, i: nat): Option<Node>
    decreases |content| - i
  {
    if i + 1 >= |content| then None
    else if content[i].value == key then Some(content[i + 1])
    else ValueAfterKey(content, key, i + 2)
  }

  /** Follows `parts` from `n`, each step through a mapping node. */
  function Walk(n: Node, parts: seq<string>): Option<Node>
    decreases |parts|
  {
    if parts == [] then Some(n)
    else if n.kind != MappingNode then None
    else match ValueAfterKey(n.content, parts[0], 0)
      case None => None
      case Some(child) => Walk(child, parts[1..])
  }

  /** Where a walk starts: the root of a document, or the node itself. */
  function Start(n: Node): Option<Node> {
    if n.kind == DocumentNode then
      if |n.content| == 0 then None else Some(n.content[0])
    else Some(n)
  }

  /** The node a dot path reaches from `n`, if any. */
  function Reach(n: Node, path: string): Option<Node> {
    match Start(n)
    case None => None
    case Some(s) => Walk(s, Split(path, '.'))
  }

  /** The (value, found) pair getNodeValueByPath returns. */
  function Lookup(node: Option<Node>, path: string): (string, bool) {
    if node.None? then ("", false)
    else match Reach(node.value, path)
      case None => ("", false)
      case Some(m) => (m.value, true)
  }

  /** getNodeValueByPath, with its loop over the segments and its inner loop over the pairs. */
  method GetNodeValueByPath(node: Option<Node>, path: string) returns (value: string, found: bool)
    ensures (value, found) == Lookup(node, path)
  {
    if node.None? {
      return "", false;
    }
    var parts := Split(path, '.');
    var current := node.value;
    if current.kind == DocumentNode {
      if |current.content| == 0 {
        return "", false;
      }
      current := current.content[0];
    }
    ghost var start := current;
    var k := 0;
    while k < |parts|
      invariant 0 <= k <= |parts|
      invariant Walk(start, parts) == Walk(current, parts[k..])
    {
      if current.kind != MappingNode {
        return "", false;
      }
      ghost var mapping := current;
      var hit := false;
      var i := 0;
      while i < |current.content|
        invariant current == mapping
        invariant ValueAfterKey(mapping.content, parts[k], 0) == ValueAfterKey(mapping.content, parts[k], i)
      {
        if i + 1 >= |current.content| {
          break;
        }
        var keyNode := current.content[i];
        var valNode := current.content[i + 1];
        if keyNode.value == parts[k] {
          current := valNode;
          hit := true;
          break;
        }
        i := i + 2;
      }
      if !hit {
        return "", false;
      }
      assert parts[k..][1..] == parts[k + 1..];
      k := k + 1;
    }
    return current.value, true;
  }

  // ---------------------------------------------------------------------
  // Parsing

  /**
   * ParseFilter: "" gives no criterion; otherwise the operator is "!=" when
   * the string contains it anywhere, else "==" when it contains that, else
   * the string is rejected.  Path and value are the trimmed text before and
   * after the first occurrence of the operator.
   */
  function ParseFilter(s: string): (r: Result<Option<FilterCriteria>, FilterError>)
    ensures r == Ok(None) <==> s == ""
    ensures r.Err? <==> s != "" && !Contains(s, "!=") && !Contains(s, "==")
  {
    if s == "" then Ok(None)
    else
      var op := if Contains(s, "!=") then "!=" else if Contains(s, "==") then "==" else "";
      if op == "" then Err(OperatorNotFound(s))
      else match Cut(s, op)
        case Some((before, after)) =>
          Ok(Some(FilterCriteria(TrimSpace(before), op, TrimSpace(after))))
        case None => Err(OperatorNotFound(s))
  }

  /** The filter string a criterion is written as. */
  function Format(f: FilterCriteria): string {
    f.path + f.operator + f.value
  }

  /**
   * An `==` criterion whose value holds `!=` does not round-trip: its
   * formatted text is read as a `!=` criterion on the longer path
   * `path==v1`.
   */
  lemma FormatNotEqualsInValue(path: string, v1: string, v2: string)
    requires '!' !in path && '!' !in v1
    ensures ParseFilter(Format(FilterCriteria(path, "==", v1 + "!=" + v2)))
            == Ok(Some(FilterCriteria(TrimSpace(path + "==" + v1), "!=", TrimSpace(v2))))
    ensures ParseFilter(Format(FilterCriteria(path, "==", v1 + "!=" + v2))) != Ok(Some(FilterCriteria(path, "==", v1 + "!=" + v2)))
  {
    var before := path + "==" + v1;
    var s := Format(FilterCriteria(path, "==", v1 + "!=" + v2));
    assert s == before + "!=" + v2;
    forall j: nat | j < |before| ensures !OccursAt(s, "!=", j) {
      assert s[j] == before[j];
      assert before[j] != '!' by {
        if j < |path| { assert before[j] == path[j]; }
        else if j >= |path| + 2 { assert before[j] == v1[j - |path| - 2]; }
      }
      assert j + 2 <= |s| ==> s[j..j + 2][0] == s[j];
    }
    ParseFilterParts(s, before, "!=", v2);
  }

  /** `!=` anywhere in the string wins over `==`. */
  lemma ParseFilterOperator(s: string)
    requires s != ""
    ensures Contains(s, "!=") ==> ParseFilter(s).Ok? && ParseFilter(s).value.value.operator == "!="
    ensures !Contains(s, "!=") && Contains(s, "==") ==> ParseFilter(s).Ok? && ParseFilter(s).value.value.operator == "=="
  {
  }

  /** Path and value are the trimmed text around the first occurrence of the operator. */
  lemma ParseFilterParts(s: string, before: string, op: string, after: string)
    requires op == "!=" || op == "=="
    requires s == before + op + after
    requires op == "==" ==> !Contains(s, "!=")
    requires forall j: nat :: j < |before| ==> !OccursAt(s, op, j)
    ensures ParseFilter(s) == Ok(Some(FilterCriteria(TrimSpace(before), op, TrimSpace(after))))
  {
    assert OccursAt(s, op, |before|) by { assert s[|before|..|before| + 2] == op; }
    assert Index(s, op) == Some(|before|);
    assert s[..|before|] == before;
    assert s[|before| + 2..] == after;
  }

  /**
   * A filter string made of a text free of '!' and '=', an operator, and
   * any text after it (for "==", one without "!=") parses into the trimmed
   * texts around the operator.
   */
  lemma ParseFilterOf(before: string, op: string, after: string)
    requires op == "==" || op == "!="
    requires '!' !in before && '=' !in before
    requires op == "==" ==> !Contains(after, "!=")
    ensures ParseFilter(before + op + after) == Ok(Some(FilterCriteria(TrimSpace(before), op, TrimSpace(after))))
  {
    var s := before + op + after;
    forall j: nat | j < |before| ensures !OccursAt(s, op, j) {
      assert s[j] == before[j];
    }
    if op == "==" {
      forall j: nat ensures !OccursAt(s, "!=", j) {
        if j < |before| {
          assert s[j] == before[j];
        } else if j < |before| + 2 {
          assert s[j] == '=';
        } else if OccursAt(s, "!=", j) {
          var t := j - |before| - 2;
          assert s[j..j + 2] == after[t..t + 2];
          assert OccursAt(after, "!=", t);
        }
      }
    }
    ParseFilterParts(s, before, op, after);
  }

  /** A text without '!' does not contain "!=". */
  lemma NoBang(x: string)
    requires '!' !in x
    ensures !Contains(x, "!=")
  {
    forall j: nat | j < |x| ensures !OccursAt(x, "!=", j) {
      assert x[j] != '!';
    }
  }

  /**
   * Formatting a criterion with a trimmed path free of '!' and '=' and a
   * trimmed value (for "==", one without "!=") and parsing it back gives
   * the criterion again.
   */
  lemma ParseFormatRoundTrip(f: FilterCriteria)
    requires f.operator == "==" || f.operator == "!="
    requires Trimmed(f.path) && Trimmed(f.value)
    requires '!' !in f.path && '=' !in f.path
    requires f.operator == "==" ==> !Contains(f.value, "!=")
    ensures ParseFilter(Format(f)) == Ok(Some(f))
  {
    ParseFilterOf(f.path, f.operator, f.value);
    TrimSpaceOfTrimmed(f.path);
    TrimSpaceOfTrimmed(f.value);
  }

  /** The first error ParseFilters meets, or the criteria of the non-empty strings in order. */
  function ParseAll(raws: seq<string>): Result<seq<FilterCriteria>, FilterError>
    decreases |raws|
  {
    if raws == [] then Ok([])
    else if raws[0] == "" then ParseAll(raws[1..])
    else
      var head := ParseFilter(raws[0]);
      if head.Err? then Err(head.error)
      else Prepend(head.value.value, ParseAll(raws[1..]))
  }

  /** The non-empty strings of `raws`, in order. */
  function NonEmpty(raws: seq<string>): (r: seq<string>)
    decreases |raws|
  {
    if raws == [] then []
    else if raws[0] == "" then NonEmpty(raws[1..])
    else [raws[0]] + NonEmpty(raws[1..])
  }

  /** ParseFilters: skips empty strings, keeps order, aborts on the first error. */
  method ParseFilters(raws: seq<string>) returns (r: Result<seq<FilterCriteria>, FilterError>)
    ensures r == ParseAll(raws)
  {
    var filters: seq<FilterCriteria> := [];
    var i := 0;
    assert raws[i..] == raws;
    PrependAllNil(ParseAll(raws));
    while i < |raws|
      invariant 0 <= i <= |raws|
      invariant ParseAll(raws) == PrependAll(filters, ParseAll(raws[i..]))
    {
      assert raws[i..][1..] == raws[i + 1..];
      var raw := raws[i];
      if raw == "" {
        i := i + 1;
        continue;
      }
      var f := ParseFilter(raw);
      if f.Err? {
        return Err(f.error);
      }
      PrependAllStep(filters, f.value.value, ParseAll(raws[i + 1..]));
      filters := filters + [f.value.value];
      i := i + 1;
    }
    assert raws[i..] == [] && filters + [] == filters;
    return Ok(filters);
  }

  /** ParseFilters succeeds iff every non-empty string parses. */
  lemma {:induction false} ParseAllOk(raws: seq<string>)
    ensures ParseAll(raws).Ok? <==> forall i :: 0 <= i < |raws| && raws[i] != "" ==> ParseFilter(raws[i]).Ok?
    decreases |raws|
  {
    if raws != [] {
      ParseAllOk(raws[1..]);
      assert forall i :: 1 <= i < |raws| ==> raws[i] == raws[1..][i - 1];
    }
  }

  /** On success there is exactly one criterion per non-empty string, in order. */
  lemma {:induction false} ParseAllContents(raws: seq<string>)
    requires ParseAll(raws).Ok?
    ensures |ParseAll(raws).value| == |NonEmpty(raws)|
    ensures forall k :: 0 <= k < |NonEmpty(raws)| ==> ParseFilter(NonEmpty(raws)[k]) == Ok(Some(ParseAll(raws).value[k]))
    decreases |raws|
  {
    if raws != [] {
      var tail := raws[1..];
      ParseAllContents(tail);
      if raws[0] != "" {
        var head := ParseFilter(raws[0]);
        var fs := ParseAll(raws).value;
        var ne := NonEmpty(raws);
        assert ne == [raws[0]] + NonEmpty(tail);
        assert fs == [head.value.value] + ParseAll(tail).value;
        forall k | 0 <= k < |ne| ensures ParseFilter(ne[k]) == Ok(Some(fs[k])) {
          if k > 0 {
            assert ne[k] == NonEmpty(tail)[k - 1];
            assert fs[k] == ParseAll(tail).value[k - 1];
          }
        }
      }
    }
  }

  /** An error is that of the first non-empty string that does not parse. */
  lemma {:induction false} ParseAllErr(raws: seq<string>) returns (i: nat)
    requires ParseAll(raws).Err?
    ensures i < |raws| && raws[i] != "" && ParseFilter(raws[i]) == Err(ParseAll(raws).error)
    ensures forall j :: 0 <= j < i && raws[j] != "" ==> ParseFilter(raws[j]).Ok?
    decreases |raws|
  {
    ParseAllHead(raws);
    if raws[0] != "" && ParseFilter(raws[0]).Err? {
      i := 0;
    } else {
      var k := ParseAllErr(raws[1..]);
      i := k + 1;
      FirstErrorBehind(raws, k);
    }
  }

  /** The first failing string of the tail, one place further on, is the first of the whole list. */
  lemma FirstErrorBehind(raws: seq<string>, k: nat)
    requires raws != [] && !(raws[0] != "" && ParseFilter(raws[0]).Err?)
    requires k < |raws[1..]|
    requires forall j :: 0 <= j < k && raws[1..][j] != "" ==> ParseFilter(raws[1..][j]).Ok?
    ensures raws[k + 1] == raws[1..][k]
    ensures forall j :: 0 <= j < k + 1 && raws[j] != "" ==> ParseFilter(raws[j]).Ok?
  {
    forall j | 0 <= j < k + 1 && raws[j] != ""
      ensures ParseFilter(raws[j]).Ok?
    {
      if j > 0 {
        assert raws[j] == raws[1..][j - 1];
      }
    }
  }

  /** A failure is the first string's own error, or else the rest's failure. */
  lemma ParseAllHead(raws: seq<string>)
    requires ParseAll(raws).Err?
    ensures raws != []
    ensures raws[0] != "" && ParseFilter(raws[0]).Err? ==> ParseFilter(raws[0]) == Err(ParseAll(raws).error)
    ensures !(raws[0] != "" && ParseFilter(raws[0]).Err?) ==> ParseAll(raws[1..]).Err? && ParseAll(raws[1..]).error == ParseAll(raws).error
  {
  }


  // ---------------------------------------------------------------------
  // Evaluation

  /**
   * FilterCriteria.Match: false on a nil node; "==" needs the field to exist
   * with the value; "!=" holds when the field is missing or differs; any other
   * operator matches.
   */
  function Match(f: FilterCriteria, node: Option<Node>): (r: bool)
    ensures node.None? ==> !r
    ensures node.Some? && f.operator == "=="
            ==> (r <==> Reach(node.value, f.path).Some? && Reach(node.value, f.path).value.value == f.value)
    ensures node.Some? && f.operator == "!="
            ==> (r <==> !(Reach(node.value, f.path).Some? && Reach(node.value, f.path).value.value == f.value))
    ensures node.Some? && f.operator != "==" && f.operator != "!=" ==> r
  {
    if node.None? then false
    else
      var lookup := Lookup(node, f.path);
      if f.operator == "==" then lookup.1 && lookup.0 == f.value
      else if f.operator == "!=" then !lookup.1 || lookup.0 != f.value
      else true
  }

  /** "==" holds exactly when the path reaches a node carrying the value. */
  lemma MatchEquals(f: FilterCriteria, n: Node)
    requires f.operator == "=="
    ensures Match(f, Some(n)) <==> Reach(n, f.path).Some? && Reach(n, f.path).value.value == f.value
  {
  }

  /** On a document, "!=" is the negation of "==" with the same path and value. */
  lemma MatchNotEqualsIsComplement(path: string, value: string, n: Node)
    ensures Match(FilterCriteria(path, "!=", value), Some(n)) == !Match(FilterCriteria(path, "==", value), Some(n))
  {
  }

  /** A missing field never equals anything (not even "") and always differs. */
  lemma MatchMissingField(path: string, value: string, n: Node)
    requires Reach(n, path).None?
    ensures !Match(FilterCriteria(path, "==", value), Some(n))
    ensures Match(FilterCriteria(path, "!=", value), Some(n))
  {
  }

  /**
   * Filters.MatchAll: true with no culprit iff every criterion matches;
   * otherwise false with the first criterion, in list order, that fails.
   */
  method MatchAll(fs: seq<FilterCriteria>, node: Option<Node>) returns (ok: bool, failed: Option<FilterCriteria>)
    ensures ok <==> forall i :: 0 <= i < |fs| ==> Match(fs[i], node)
    ensures ok ==> failed == None
    ensures !ok ==> exists i :: 0 <= i < |fs| && failed == Some(fs[i]) && !Match(fs[i], node) &&
                                forall j :: 0 <= j < i ==> Match(fs[j], node)
  {
    var i := 0;
    while i < |fs|
      invariant 0 <= i <= |fs|
      invariant forall j :: 0 <= j < i ==> Match(fs[j], node)
    {
      if !Match(fs[i], node) {
        return false, Some(fs[i]);
      }
      i := i + 1;
    }
    return true, None;
  }

  // ---------------------------------------------------------------------
  // Properties of the path evaluator

  /** Only the first pair with a matching key counts; a trailing key is ignored. */
  lemma {:induction false} ValueAfterKeyFirst(content: seq<Node>, key: string, i: nat, p: nat)
    requires i <= p && (p - i) % 2 == 0 && p + 1 < |content|
    requires content[p].value == key
    requires forall q: nat :: i <= q < p && (q - i) % 2 == 0 ==> content[q].value != key
    ensures ValueAfterKey(content, key, i) == Some(content[p + 1])
    decreases p - i
  {
    if i < p {
      ValueAfterKeyFirst(content, key, i + 2, p);
    }
  }

  /** What ValueAfterKey finds is the value of the pair at `p`, whose key matches and before which no pair's key does. */
  lemma {:induction false} ValueAfterKeyFound(content: seq<Node>, key: string, i: nat) returns (p: nat)
    requires ValueAfterKey(content, key, i).Some?
    ensures i <= p && (p - i) % 2 == 0 && p + 1 < |content| && content[p].value == key
    ensures ValueAfterKey(content, key, i) == Some(content[p + 1])
    ensures forall q: nat :: i <= q < p && (q - i) % 2 == 0 ==> content[q].value != key
    decreases |content| - i
  {
    if content[i].value == key {
      p := i;
    } else {
      p := ValueAfterKeyFound(content, key, i + 2);
      forall q: nat | i <= q < p && (q - i) % 2 == 0 ensures content[q].value != key {
        if q != i { assert (q - (i + 2)) % 2 == 0; }
      }
    }
  }

  /** A key left without its value at the end of a mapping is never matched. */
  lemma {:induction false} TrailingKeyIgnored(content: seq<Node>, extra: Node, key: string, i: nat)
    requires |content| % 2 == 0 && i % 2 == 0
    ensures ValueAfterKey(content + [extra], key, i) == ValueAfterKey(content, key, i)
    decreases |content| - i
  {
    if i + 1 < |content| {
      assert (content + [extra])[i] == content[i];
      assert (content + [extra])[i + 1] == content[i + 1];
      TrailingKeyIgnored(content, extra, key, i + 2);
    }
  }

  /** Only the root document is unwrapped: a document met along the path stops the walk. */
  lemma NestedDocumentStops(d: Node, parts: seq<string>)
    requires d.kind == DocumentNode && parts != []
    ensures Walk(d, parts) == None
  {
  }

  /** A walk along `a + b` is a walk along `a` and then along `b`. */
  lemma {:induction false} WalkAppend(n: Node, a: seq<string>, b: seq<string>)
    ensures Walk(n, a + b) == match Walk(n, a) case None => None case Some(m) => Walk(m, b)
    decreases |a|
  {
    if a == [] {
      assert a + b == b;
    } else {
      assert (a + b)[1..] == a[1..] + b;
      if n.kind == MappingNode {
        match ValueAfterKey(n.content, a[0], 0)
        case None =>
        case Some(c) => WalkAppend(c, a[1..], b);
      }
    }
  }

  // ---------------------------------------------------------------------
  // The table of filter_test.go

  /** A lone "=" or "~=" is not an operator: neither contains "==" or "!=". */
  lemma ParseFilterRejectsSingleCharOperators()
    ensures ParseFilter("key=value").Err?
    ensures ParseFilter("key~=value").Err?
  {
    NoTwoCharOperator("key=value");
    NoTwoCharOperator("key~=value");
  }


  /** "key==" is accepted, with an empty value. */
  lemma ParseFilterEmptyValue()
    ensures ParseFilter("key==") == Ok(Some(FilterCriteria("key", "==", "")))
  {
    var f := FilterCriteria("key", "==", "");
    assert Format(f) == "key==";
    ParseFormatRoundTrip(f);
  }

  /** Padding adds no character that is not white space. */
  lemma PaddedFree(w1: string, x: string, w2: string, c: char)
    requires AllSpace(w1) && AllSpace(w2) && !IsSpace(c) && c !in x
    ensures c !in w1 + x + w2
  {
    var s := w1 + x + w2;
    forall k | 0 <= k < |s|
      ensures s[k] != c
    {
      if k < |w1| {
        assert s[k] == w1[k];
      } else if k < |w1| + |x| {
        assert s[k] == x[k - |w1|];
      } else {
        assert s[k] == w2[k - |w1| - |x|];
      }
    }
  }

  /** Whitespace around the path, the operator and the value is trimmed away. */
  lemma ParseFilterPadded(w1: string, path: string, w2: string, op: string, w3: string, value: string, w4: string)
    requires AllSpace(w1) && AllSpace(w2) && AllSpace(w3) && AllSpace(w4)
    requires Trimmed(path) && Trimmed(value)
    requires op == "==" || op == "!="
    requires '!' !in path && '=' !in path
    requires op == "==" ==> '!' !in value
    ensures ParseFilter(w1 + path + w2 + op + w3 + value + w4) == Ok(Some(FilterCriteria(path, op, value)))
  {
    var before, after := w1 + path + w2, w3 + value + w4;
    assert w1 + path + w2 + op + w3 + value + w4 == before + op + after;
    ParseFilterAround(before, op, after);
    TrimSpaceOfPadded(w1, path, w2);
    TrimSpaceOfPadded(w3, value, w4);
    PaddedFree(w1, path, w2, '!');
    PaddedFree(w1, path, w2, '=');
    if op == "==" {
      PaddedFree(w3, value, w4, '!');
      NoBang(after);
    }
  }

  /** ParseFilterOf, stated as an implication so that callers prove its conditions afterwards. */
  lemma ParseFilterAround(before: string, op: string, after: string)
    ensures (op == "==" || op == "!=") && '!' !in before && '=' !in before && (op == "==" ==> !Contains(after, "!=")) ==>
      ParseFilter(before + op + after) == Ok(Some(FilterCriteria(TrimSpace(before), op, TrimSpace(after))))
  {
    if (op == "==" || op == "!=") && '!' !in before && '=' !in before && (op == "==" ==> !Contains(after, "!=")) {
      ParseFilterOf(before, op, after);
    }
  }

  /** A string whose '=' is never preceded by '!' and never followed by '=' has neither operator. */
  lemma NoTwoCharOperator(s: string)
    requires forall j :: 0 <= j < |s| - 1 ==> s[j + 1] != '=' || (s[j] != '!' && s[j] != '=')
    ensures !Contains(s, "!=") && !Contains(s, "==")
  {
    forall j: nat ensures !OccursAt(s, "!=", j) && !OccursAt(s, "==", j) {
      if j + 2 <= |s| {
        assert s[j..j + 2] == [s[j], s[j + 1]];
      }
    }
  }
}
