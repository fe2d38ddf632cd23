/**
 * The small part of Go's `strings` and `strconv` packages that the renderer
 * uses, written over `seq<char>`: prefix tests, first-occurrence search,
 * cutting at a separator, ASCII whitespace trimming, splitting, and decimal
 * integers in both directions.
 */
module Strings {
  import opened Wrappers

  predicate HasPrefix(s: string, prefix: string) {
    |prefix| <= |s| && s[..|prefix|] == prefix
  }

  /** strings.TrimPrefix: drops `prefix` when it is there, else returns `s`. */
  function TrimPrefix(s: string, prefix: string): (r: string)
    ensures HasPrefix(s, prefix) ==> s == prefix + r
    ensures !HasPrefix(s, prefix) ==> r == s
  {
    if HasPrefix(s, prefix) then s[|prefix|..] else s
  }

  /** `sub` occurs in `s` starting at position `j`. */
  predicate OccursAt(s: string, sub: string, j: nat) {
    j + |sub| <= |s| && s[j..j + |sub|] == sub
  }

  function IndexFrom(s: string, sub: string, i: nat): (r: Option<nat>)
    requires i <= |s|
    decreases |s| - i
    ensures r.Some? ==> i <= r.value && OccursAt(s, sub, r.value)
    ensures r.Some? ==> forall j: nat :: i <= j < r.value ==> !OccursAt(s, sub, j)
    ensures r.None? ==> forall j: nat :: i <= j ==> !OccursAt(s, sub, j)
  {
    if i + |sub| > |s| then None
    else if s[i..i + |sub|] == sub then Some(i)
    else IndexFrom(s, sub, i + 1)
  }

  /** strings.Index: the position of the first occurrence of `sub`. */
  function Index(s: string, sub: string): (r: Option<nat>)
    ensures r.Some? ==> OccursAt(s, sub, r.value)
    ensures r.Some? ==> forall j: nat :: j < r.value ==> !OccursAt(s, sub, j)
    ensures r.None? ==> forall j: nat :: !OccursAt(s, sub, j)
  {
    IndexFrom(s, sub, 0)
  }

  /** strings.Contains. */
  predicate Contains(s: string, sub: string) {
    Index(s, sub).Some?
  }

  /**
   * The two-part cut that `strings.SplitN(s, sep, 2)` performs: the text
   * before and after the first occurrence of `sep`, or None when `sep` does
   * not occur (SplitN then returns a single part).
   */
  function Cut(s: string, sep: string): (r: Option<(string, string)>)
    ensures r.None? <==> !Contains(s, sep)
    ensures r.Some? ==> s == r.value.0 + sep + r.value.1
    ensures r.Some? ==> forall j: nat :: j < |r.value.0| ==> !OccursAt(s, sep, j)
  {
    match Index(s, sep)
    case None => None
    case Some(i) =>
      assert s == s[..i] + sep + s[i + |sep|..] by {
        assert s[i..i + |sep|] == sep;
        assert s == s[..i] + s[i..i + |sep|] + s[i + |sep|..];
      }
      Some((s[..i], s[i + |sep|..]))
  }

  /** A one-character text occurs exactly where that character stands. */
  lemma OccursAtChar(s: string, c: char, j: nat)
    requires j < |s|
    ensures OccursAt(s, [c], j) <==> s[j] == c
  {
    assert s[j..j + 1] == [s[j]];
  }

  /** Cutting at a one-character separator leaves no separator in the part before it. */
  lemma CutBeforeFree(s: string, c: char)
    requires Cut(s, [c]).Some?
    ensures c !in Cut(s, [c]).value.0
  {
    var r := Cut(s, [c]).value;
    forall j | 0 <= j < |r.0|
      ensures r.0[j] != c
    {
      assert r.0[j] == s[j];
      OccursAtChar(s, c, j);
    }
  }

  /** When there is nothing to cut, the text holds no separator. */
  lemma CutNoneFree(s: string, c: char)
    requires Cut(s, [c]).None?
    ensures c !in s
  {
    forall j | 0 <= j < |s|
      ensures s[j] != c
    {
      OccursAtChar(s, c, j);
    }
  }

  /** A text without the character has nothing to cut. */
  lemma CutMissing(s: string, c: char)
    requires c !in s
    ensures Cut(s, [c]) == None
  {
  }

  /** Cutting `a + [c] + b` at `c` gives back `a` and `b` when `a` holds no `c`. */
  lemma CutAtChar(a: string, c: char, b: string)
    requires c !in a
    ensures Cut(a + [c] + b, [c]) == Some((a, b))
  {
    var s := a + [c] + b;
    assert OccursAt(s, [c], |a|) by {
      assert s[|a|..|a| + 1] == [c];
    }
    var r := Cut(s, [c]).value;
    assert s[|r.0|] == c;
    assert forall j :: 0 <= j < |a| ==> s[j] == a[j];
    assert |r.0| == |a|;
    assert r.0 == s[..|a|] == a;
    assert r.1 == s[|a| + 1..] == b;
  }

  /** ASCII whitespace as strings.TrimSpace sees it. */
  predicate IsSpace(c: char) {
    c == ' ' || c == '\t' || c == '\n' || c == '\r' || c == '\U{000B}' || c == '\U{000C}'
  }

  predicate AllSpace(s: string) {
    forall i :: 0 <= i < |s| ==> IsSpace(s[i])
  }

  /** Neither end of `s` is whitespace. */
  predicate Trimmed(s: string) {
    s == [] || (!IsSpace(s[0]) && !IsSpace(s[|s| - 1]))
  }

  function TrimLeft(s: string): string {
    if s != [] && IsSpace(s[0]) then TrimLeft(s[1..]) else s
  }

  function TrimRight(s: string): string {
    if s != [] && IsSpace(s[|s| - 1]) then TrimRight(s[..|s| - 1]) else s
  }

  /** strings.TrimSpace, restricted to ASCII whitespace. */
  function TrimSpace(s: string): string {
    TrimRight(TrimLeft(s))
  }

  /** TrimLeft removes a prefix of whitespace and stops at the first other character. */
  lemma {:induction false} TrimLeftSpec(s: string)
    ensures var r := TrimLeft(s);
      |r| <= |s| && r == s[|s| - |r|..] && AllSpace(s[..|s| - |r|]) && (r != [] ==> !IsSpace(r[0]))
  {
    if s != [] && IsSpace(s[0]) {
      TrimLeftSpec(s[1..]);
    }
  }

  /** TrimRight removes a suffix of whitespace and stops at the last other character. */
  lemma {:induction false} TrimRightSpec(s: string)
    ensures var r := TrimRight(s);
      |r| <= |s| && r == s[..|r|] && AllSpace(s[|r|..]) && (r != [] ==> !IsSpace(r[|r| - 1]))
  {
    if s != [] && IsSpace(s[|s| - 1]) {
      var init := s[..|s| - 1];
      TrimRightSpec(init);
      var r := TrimRight(init);
      assert s[|r|..] == init[|r|..] + [s[|s| - 1]];
    }
  }

  /** TrimSpace leaves no whitespace at either end, and what it keeps is a slice of the input. */
  lemma TrimSpaceSpec(s: string)
    ensures Trimmed(TrimSpace(s))
    ensures exists i, j :: 0 <= i <= j <= |s| && TrimSpace(s) == s[i..j] && AllSpace(s[..i]) && AllSpace(s[j..])
  {
    var l := TrimLeft(s);
    TrimLeftSpec(s);
    TrimRightSpec(l);
    var r := TrimRight(l);
    var i := |s| - |l|;
    assert r == s[i..i + |r|];
    assert AllSpace(s[i + |r|..]) by {
      assert s[i + |r|..] == l[|r|..];
    }
    if r != [] {
      assert r[0] == l[0];
    }
  }

  lemma {:induction false} TrimLeftSkips(w: string, x: string)
    requires AllSpace(w)
    requires x == [] || !IsSpace(x[0])
    ensures TrimLeft(w + x) == x
  {
    if w != [] {
      assert (w + x)[1..] == w[1..] + x;
      TrimLeftSkips(w[1..], x);
    }
  }

  lemma {:induction false} TrimRightSkips(x: string, w: string)
    requires AllSpace(w)
    requires x == [] || !IsSpace(x[|x| - 1])
    ensures TrimRight(x + w) == x
  {
    if w != [] {
      assert (x + w)[..|x + w| - 1] == x + w[..|w| - 1];
      TrimRightSkips(x, w[..|w| - 1]);
    } else {
      assert x + w == x;
    }
  }

  /** Trimming removes exactly the surrounding whitespace. */
  lemma TrimSpaceOfPadded(w1: string, x: string, w2: string)
    requires AllSpace(w1) && AllSpace(w2) && Trimmed(x)
    ensures TrimSpace(w1 + x + w2) == x
  {
    if x == [] {
      assert w1 + x + w2 == w1 + w2;
      TrimLeftSkips(w1 + w2, []);
      assert w1 + w2 + [] == w1 + w2;
      assert TrimLeft(w1 + w2) == [];
    } else {
      assert w1 + x + w2 == w1 + (x + w2);
      TrimLeftSkips(w1, x + w2);
      TrimRightSkips(x, w2);
    }
  }

  /** A string with no surrounding whitespace is left alone. */
  lemma TrimSpaceOfTrimmed(x: string)
    requires Trimmed(x)
    ensures TrimSpace(x) == x
  {
    assert [] + x + [] == x;
    TrimSpaceOfPadded([], x, []);
  }

  /** Joins `parts` with `sep` between neighbours, as strings.Join does. */
  function Join(parts: seq<string>, sep: char): string
    requires parts != []
  {
    if |parts| == 1 then parts[0] else parts[0] + [sep] + Join(parts[1..], sep)
  }

  /**
   * strings.Split with a one-character separator: always at least one
   * part, no part contains the separator, and joining the parts gives the
   * input back (so "" splits into [""] and "a..b" into ["a", "", "b"]).
   */
  function Split(s: string, sep: char): (r: seq<string>)
    decreases |s|
    ensures r != []
    ensures forall k :: 0 <= k < |r| ==> sep !in r[k]
    ensures Join(r, sep) == s
  {
    match Cut(s, [sep])
    case None =>
      CutNoneFree(s, sep);
      [s]
    case Some((a, b)) =>
      CutBeforeFree(s, sep);
      [a] + Split(b, sep)
  }

  /** Splitting a string that starts with a separator-free part and a separator. */
  lemma SplitCons(a: string, sep: char, b: string)
    requires sep !in a
    ensures Split(a + [sep] + b, sep) == [a] + Split(b, sep)
  {
    var s := a + [sep] + b;
    assert OccursAt(s, [sep], |a|) by { assert s[|a|..|a| + 1] == [sep]; }
    forall j: nat | j < |a| ensures !OccursAt(s, [sep], j) {
      assert s[j] == a[j];
    }
    assert Index(s, [sep]) == Some(|a|);
    assert s[|a| + 1..] == b;
  }

  /** Splitting a string without the separator. */
  lemma SplitNone(a: string, sep: char)
    requires sep !in a
    ensures Split(a, sep) == [a]
  {
    forall j: nat | j < |a| ensures !OccursAt(a, [sep], j) {
      assert a[j] != sep;
    }
  }

  /** Splitting undoes joining separator-free parts. */
  lemma {:induction false} SplitJoin(parts: seq<string>, sep: char)
    requires parts != [] && forall k :: 0 <= k < |parts| ==> sep !in parts[k]
    ensures Split(Join(parts, sep), sep) == parts
    decreases |parts|
  {
    if |parts| == 1 {
      SplitNone(parts[0], sep);
    } else {
      SplitJoin(parts[1..], sep);
      SplitCons(parts[0], sep, Join(parts[1..], sep));
      assert parts == [parts[0]] + parts[1..];
    }
  }

  /** Joining two lists of parts is joining each and putting a separator between. */
  lemma {:induction false} JoinConcat(p: seq<string>, q: seq<string>, sep: char)
    requires p != [] && q != []
    ensures Join(p + q, sep) == Join(p, sep) + [sep] + Join(q, sep)
    decreases |p|
  {
    if |p| == 1 {
      assert (p + q)[1..] == q;
    } else {
      JoinConcat(p[1..], q, sep);
      assert (p + q)[1..] == p[1..] + q;
    }
  }

  /** Splitting two texts joined by a separator gives the parts of each. */
  lemma SplitConcat(a: string, sep: char, b: string)
    ensures Split(a + [sep] + b, sep) == Split(a, sep) + Split(b, sep)
  {
    var pa, pb := Split(a, sep), Split(b, sep);
    JoinConcat(pa, pb, sep);
    forall k | 0 <= k < |pa + pb|
      ensures sep !in (pa + pb)[k]
    {
      if k < |pa| {
        assert (pa + pb)[k] == pa[k];
      } else {
        assert (pa + pb)[k] == pb[k - |pa|];
      }
    }
    SplitJoin(pa + pb, sep);
  }


  predicate IsDigit(c: char) { '0' <= c <= '9' }

  predicate AllDigits(s: string) {
    forall i :: 0 <= i < |s| ==> IsDigit(s[i])
  }

  /** The value of a string of decimal digits, most significant first. */
  function DigitsValue(s: string): (n: nat)
    requires AllDigits(s)
  {
    if s == [] then 0 else 10 * DigitsValue(s[..|s| - 1]) + (s[|s| - 1] as int - '0' as int)
  }

  /**
   * strconv.Atoi: an optional sign followed by one or more decimal digits.
   * Go's range limit (an out-of-range error) is not modelled.
   */
  function Atoi(s: string): (r: Option<int>)
    ensures r.Some? ==> s != []
  {
    var neg := s != [] && s[0] == '-';
    var digits := if s != [] && (s[0] == '-' || s[0] == '+') then s[1..] else s;
    if digits != [] && AllDigits(digits) then
      var v: int := if neg then -(DigitsValue(digits) as int) else DigitsValue(digits);
      Some(v)
    else None
  }

  function DigitChar(d: nat): (c: char)
    requires d < 10
    ensures IsDigit(c) && c as int - '0' as int == d
  {
    ('0' as int + d) as char
  }

  /** The decimal text of `n`, without leading zeros (fmt's %d). */
  function NatToString(n: nat): (s: string)
    ensures s != [] && AllDigits(s)
  {
    if n < 10 then [DigitChar(n)] else NatToString(n / 10) + [DigitChar(n % 10)]
  }

  /** Reading back the decimal text of `n` gives `n`. */
  lemma {:induction false} NatToStringRoundTrip(n: nat)
    ensures DigitsValue(NatToString(n)) == n
  {
    var s := NatToString(n);
    if n < 10 {
      assert s[..|s| - 1] == [];
    } else {
      NatToStringRoundTrip(n / 10);
      assert s[..|s| - 1] == NatToString(n / 10);
    }
  }

  /** Different numbers have different decimal texts. */
  lemma NatToStringInjective(n: nat, m: nat)
    requires NatToString(n) == NatToString(m)
    ensures n == m
  {
    NatToStringRoundTrip(n);
    NatToStringRoundTrip(m);
  }

  /** Atoi reads back what NatToString writes. */
  lemma AtoiNatToString(n: nat)
    ensures Atoi(NatToString(n)) == Some(n)
  {
    NatToStringRoundTrip(n);
  }
}
