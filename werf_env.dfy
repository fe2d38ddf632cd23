/**
 * The plugin environment of an Application (`spec.source.plugin.env`):
 * `WERF_SET_<x>` entries carry a `key=value` override, and
 * `WERF_VALUES_<n>` entries carry a values file whose load order is the
 * integer `n`.  parser.go and app.go read this list with the same rules,
 * except that parser.go drops a setter whose key is empty.
 */
module WerfEnv {
  import opened Wrappers
  import opened Strings

  datatype EnvVar = EnvVar(name: string, value: string)

  const SetPrefix: string := "WERF_SET_"
  const ValuesPrefix: string := "WERF_VALUES_"

  // ---------------------------------------------------------------------
  // Setters

  /**
   * The override a WERF_SET_* entry contributes: its value cut at the first
   * '='; no override when there is no '=' or, unless `allowEmptyKey`, when
   * the key is empty.
   */
  function SetterOf(e: EnvVar, allowEmptyKey: bool): Option<(string, string)> {
    if !HasPrefix(e.name, SetPrefix) then None
    else match Cut(e.value, "=")
      case None => None
      case Some(kv) => if kv.0 == "" && !allowEmptyKey then None else Some(kv)
  }

  predicate SetsKey(e: EnvVar, allowEmptyKey: bool, key: string) {
    SetterOf(e, allowEmptyKey).Some? && SetterOf(e, allowEmptyKey).value.0 == key
  }

  /** The override map after writing every entry's override in list order. */
  function Setters(env: seq<EnvVar>, allowEmptyKey: bool): map<string, string>
    decreases |env|
  {
    if env == [] then map[]
    else
      var before := Setters(env[..|env| - 1], allowEmptyKey);
      match SetterOf(env[|env| - 1], allowEmptyKey)
      case None => before
      case Some(kv) => before[kv.0 := kv.1]
  }

  /** One more entry with an override writes it over the map so far. */
  lemma SettersAppendSet(env: seq<EnvVar>, e: EnvVar, allowEmptyKey: bool, key: string, value: string)
    requires SetterOf(e, allowEmptyKey) == Some((key, value))
    ensures Setters(env + [e], allowEmptyKey) == Setters(env, allowEmptyKey)[key := value]
  {
    assert (env + [e])[..|env|] == env;
  }

  /** One more entry without an override leaves the map as it was. */
  lemma SettersAppendNone(env: seq<EnvVar>, e: EnvVar, allowEmptyKey: bool)
    requires SetterOf(e, allowEmptyKey).None?
    ensures Setters(env + [e], allowEmptyKey) == Setters(env, allowEmptyKey)
  {
    assert (env + [e])[..|env|] == env;
  }


  /** A key is set iff some entry sets it. */
  lemma {:induction false} SettersKeys(env: seq<EnvVar>, allowEmptyKey: bool, key: string)
    ensures key in Setters(env, allowEmptyKey) <==> exists i :: 0 <= i < |env| && SetsKey(env[i], allowEmptyKey, key)
    decreases |env|
  {
    if env != [] {
      var init := env[..|env| - 1];
      SettersKeys(init, allowEmptyKey, key);
      assert forall i :: 0 <= i < |init| ==> init[i] == env[i];
    }
  }

  /** The value of a set key comes from the last entry that sets it: later entries overwrite earlier ones. */
  lemma {:induction false} SettersLastWins(env: seq<EnvVar>, allowEmptyKey: bool, key: string) returns (i: nat)
    requires key in Setters(env, allowEmptyKey)
    ensures i < |env| && SetterOf(env[i], allowEmptyKey) == Some((key, Setters(env, allowEmptyKey)[key]))
    ensures forall j :: i < j < |env| ==> !SetsKey(env[j], allowEmptyKey, key)
    decreases |env|
  {
    var init := env[..|env| - 1];
    if SetsKey(env[|env| - 1], allowEmptyKey, key) {
      SettersLastEntry(env, allowEmptyKey, key);
      i := |env| - 1;
    } else {
      SettersOtherEntry(env, allowEmptyKey, key);
      i := SettersLastWins(init, allowEmptyKey, key);
      assert init[i] == env[i];
      assert forall j :: i < j < |init| ==> init[j] == env[j];
    }
  }

  /** An entry that sets `key` decides its value. */
  lemma SettersLastEntry(env: seq<EnvVar>, allowEmptyKey: bool, key: string)
    requires env != [] && SetsKey(env[|env| - 1], allowEmptyKey, key)
    ensures key in Setters(env, allowEmptyKey)
    ensures SetterOf(env[|env| - 1], allowEmptyKey) == Some((key, Setters(env, allowEmptyKey)[key]))
  {
    var kv := SetterOf(env[|env| - 1], allowEmptyKey).value;
    assert Setters(env, allowEmptyKey) == Setters(env[..|env| - 1], allowEmptyKey)[kv.0 := kv.1];
  }

  /** An entry that does not set `key` leaves it as the entries before it did. */
  lemma SettersOtherEntry(env: seq<EnvVar>, allowEmptyKey: bool, key: string)
    requires env != [] && !SetsKey(env[|env| - 1], allowEmptyKey, key)
    ensures var before := Setters(env[..|env| - 1], allowEmptyKey);
      && (key in Setters(env, allowEmptyKey) <==> key in before)
      && (key in before ==> Setters(env, allowEmptyKey)[key] == before[key])
  {
    var before := Setters(env[..|env| - 1], allowEmptyKey);
    match SetterOf(env[|env| - 1], allowEmptyKey)
    case None =>
      assert Setters(env, allowEmptyKey) == before;
    case Some(kv) =>
      assert Setters(env, allowEmptyKey) == before[kv.0 := kv.1];
  }

  /** No name carries both prefixes, so testing SET before VALUES loses nothing. */
  lemma PrefixesExclusive(name: string)
    ensures HasPrefix(name, SetPrefix) ==> !HasPrefix(name, ValuesPrefix)
  {
    if HasPrefix(name, SetPrefix) {
      assert name[5] == name[..9][5] == SetPrefix[5] == 'S';
      assert ValuesPrefix[5] == 'V';
    }
  }

  // ---------------------------------------------------------------------
  // Values files

  datatype IndexedFile = IndexedFile(index: int, path: string)

  /** A WERF_VALUES_<n> entry whose suffix is an integer gives the file at index n. */
  function IndexedOf(e: EnvVar): Option<IndexedFile> {
    if !HasPrefix(e.name, ValuesPrefix) then None
    else match Atoi(TrimPrefix(e.name, ValuesPrefix))
      case None => None
      case Some(n) => Some(IndexedFile(n, e.value))
  }

  /** The indexed values files of `env`, in list order. */
  function Indexed(env: seq<EnvVar>): seq<IndexedFile>
    decreases |env|
  {
    if env == [] then []
    else
      var init := Indexed(env[..|env| - 1]);
      match IndexedOf(env[|env| - 1])
      case None => init
      case Some(f) => init + [f]
  }

  /** One more entry with a values file appends it to the files so far. */
  lemma IndexedAppendFile(env: seq<EnvVar>, e: EnvVar, f: IndexedFile)
    requires IndexedOf(e) == Some(f)
    ensures Indexed(env + [e]) == Indexed(env) + [f]
  {
    assert (env + [e])[..|env|] == env;
  }

  /** One more entry without a values file leaves the files as they were. */
  lemma IndexedAppendNone(env: seq<EnvVar>, e: EnvVar)
    requires IndexedOf(e).None?
    ensures Indexed(env + [e]) == Indexed(env)
  {
    assert (env + [e])[..|env|] == env;
  }


  /** Every indexed file comes from an entry whose suffix is an integer. */
  lemma {:induction false} IndexedSound(env: seq<EnvVar>, f: IndexedFile) returns (i: nat)
    requires f in Indexed(env)
    ensures i < |env| && IndexedOf(env[i]) == Some(f)
    decreases |env|
  {
    var init := env[..|env| - 1];
    IndexedLast(env, f);
    if f in Indexed(init) {
      i := IndexedSound(init, f);
      assert env[i] == init[i];
    } else {
      i := |env| - 1;
    }
  }

  /** Every entry whose suffix is an integer gives an indexed file. */
  lemma {:induction false} IndexedComplete(env: seq<EnvVar>, i: nat, f: IndexedFile)
    requires i < |env| && IndexedOf(env[i]) == Some(f)
    ensures f in Indexed(env)
    decreases |env|
  {
    var init := env[..|env| - 1];
    IndexedLast(env, f);
    if i < |init| {
      assert env[i] == init[i];
      IndexedComplete(init, i, f);
    }
  }

  /** The last entry adds its file, if it has one, after those of the entries before it. */
  lemma IndexedLast(env: seq<EnvVar>, f: IndexedFile)
    requires env != []
    ensures f in Indexed(env) <==> f in Indexed(env[..|env| - 1]) || IndexedOf(env[|env| - 1]) == Some(f)
  {
  }

  predicate SortedByIndex(s: seq<IndexedFile>) {
    forall i, j :: 0 <= i < j < |s| ==> s[i].index <= s[j].index
  }

  /** `order` holds exactly the files of `items`, ascending by index (ties in any order). */
  predicate SortedArrangement(order: seq<IndexedFile>, items: seq<IndexedFile>) {
    multiset(order) == multiset(items) && SortedByIndex(order)
  }

  function FilePaths(s: seq<IndexedFile>): (r: seq<string>)
    ensures |r| == |s| && forall k :: 0 <= k < |s| ==> r[k] == s[k].path
  {
    seq(|s|, k requires 0 <= k < |s| => s[k].path)
  }

  /** `files` is a list of values files that `env` can give: the paths of a sorted arrangement of its indexed files. */
  ghost predicate ValuesFilesOf(env: seq<EnvVar>, files: seq<string>) {
    Arranged(Indexed(env), files)
  }

  /** `files` are the paths of `items` in some order ascending by index. */
  ghost predicate Arranged(items: seq<IndexedFile>, files: seq<string>) {
    exists order :: SortedArrangement(order, items) && files == FilePaths(order)
  }

  /** Files that share an index also share their path. */
  ghost predicate IndexDeterminesFile(m: multiset<IndexedFile>) {
    forall x, y :: x in m && y in m && x.index == y.index ==> x == y
  }

  /**
   * When files sharing an index share their path (in particular when all
   * indices differ), the sorted arrangement is unique: the order of the
   * values files is fully determined.
   */
  lemma {:induction false} SortedArrangementUnique(a: seq<IndexedFile>, b: seq<IndexedFile>)
    requires SortedByIndex(a) && SortedByIndex(b) && multiset(a) == multiset(b)
    requires IndexDeterminesFile(multiset(a))
    ensures a == b
    decreases |a|
  {
    if a == [] {
      assert |b| == |multiset(b)| == 0;
    } else {
      SameHead(a, b);
      Tail(a);
      Tail(b);
      assert multiset(a[1..]) == multiset(b[1..]);
      SubDetermines(multiset(a), multiset(a[1..]));
      SortedArrangementUnique(a[1..], b[1..]);
    }
  }

  lemma Tail(a: seq<IndexedFile>)
    requires a != [] && SortedByIndex(a)
    ensures SortedByIndex(a[1..]) && multiset(a[1..]) == multiset(a) - multiset{a[0]}
  {
    assert a == [a[0]] + a[1..];
  }

  lemma SubDetermines(m: multiset<IndexedFile>, sub: multiset<IndexedFile>)
    requires IndexDeterminesFile(m) && sub <= m
    ensures IndexDeterminesFile(sub)
  {
  }

  /** Two such arrangements start with the same file: both start with a file of least index. */
  lemma SameHead(a: seq<IndexedFile>, b: seq<IndexedFile>)
    requires a != [] && SortedByIndex(a) && SortedByIndex(b) && multiset(a) == multiset(b)
    requires IndexDeterminesFile(multiset(a))
    ensures b != [] && a[0] == b[0]
  {
    assert a[0] in multiset(b);
    var j :| 0 <= j < |b| && b[j] == a[0];
    assert b[0] in multiset(a);
    var i :| 0 <= i < |a| && a[i] == b[0];
    assert a[0].index <= a[i].index;
    assert b[0].index <= b[j].index;
  }

  /** So, under that condition, `env` determines its values-file list. */
  lemma ValuesFilesDetermined(env: seq<EnvVar>, files1: seq<string>, files2: seq<string>)
    requires ValuesFilesOf(env, files1) && ValuesFilesOf(env, files2)
    requires IndexDeterminesFile(multiset(Indexed(env)))
    ensures files1 == files2
  {
    var o1 :| SortedArrangement(o1, Indexed(env)) && files1 == FilePaths(o1);
    var o2 :| SortedArrangement(o2, Indexed(env)) && files2 == FilePaths(o2);
    SortedArrangementUnique(o1, o2);
  }

  /** Two files under one index with different paths may come out in either order. */
  lemma DuplicateIndexEitherOrder(n: int, p: string, q: string)
    ensures SortedArrangement([IndexedFile(n, p), IndexedFile(n, q)], [IndexedFile(n, p), IndexedFile(n, q)])
    ensures SortedArrangement([IndexedFile(n, q), IndexedFile(n, p)], [IndexedFile(n, p), IndexedFile(n, q)])
  {
  }

  /** sort.Slice by index, as an in-place insertion sort of adjacent swaps. */
  method SortByIndex(a: array<IndexedFile>)
    modifies a
    ensures SortedByIndex(a[..])
    ensures multiset(a[..]) == old(multiset(a[..]))
  {
    if a.Length == 0 {
      return;
    }
    var i := 1;
    while i < a.Length
      invariant 1 <= i <= a.Length
      invariant SortedByIndex(a[..i])
      invariant multiset(a[..]) == old(multiset(a[..]))
    {
      InsertAt(a, i);
      i := i + 1;
    }
    assert a[..] == a[..a.Length];
  }

  /** One insertion step: a[i] sinks into the sorted prefix a[..i]. */
  method InsertAt(a: array<IndexedFile>, i: int)
    requires 1 <= i < a.Length && SortedByIndex(a[..i])
    modifies a
    ensures SortedByIndex(a[..i + 1])
    ensures multiset(a[..]) == old(multiset(a[..]))
  {
    var j := i;
    while j > 0 && a[j - 1].index > a[j].index
      invariant 0 <= j <= i
      invariant forall p, q :: 0 <= p < q <= i && q != j ==> a[p].index <= a[q].index
      invariant forall q :: j < q <= i ==> a[j].index < a[q].index
      invariant multiset(a[..]) == old(multiset(a[..]))
    {
      SwapDown(a, j);
      j := j - 1;
    }
  }

  /** Exchanges a[j - 1] and a[j], leaving the rest and the multiset of elements alone. */
  method SwapDown(a: array<IndexedFile>, j: int)
    requires 0 < j < a.Length
    modifies a
    ensures a[j - 1] == old(a[j]) && a[j] == old(a[j - 1])
    ensures forall k :: 0 <= k < a.Length && k != j - 1 && k != j ==> a[k] == old(a[k])
    ensures multiset(a[..]) == old(multiset(a[..]))
  {
    ghost var before := a[..];
    a[j - 1], a[j] := a[j], a[j - 1];
    assert a[..] == before[j - 1 := before[j]][j := before[j - 1]];
  }

  /**
   * The values files in load order: the collected files are sorted by index
   * in place and their paths copied out by position.
   */
  method SortedPaths(items: seq<IndexedFile>) returns (files: seq<string>, ghost order: seq<IndexedFile>)
    ensures SortedArrangement(order, items)
    ensures files == FilePaths(order)
  {
    var a := new IndexedFile[|items|](k requires 0 <= k < |items| => items[k]);
    assert a[..] == items;
    SortByIndex(a);
    order := a[..];
    var out := new string[a.Length];
    var k := 0;
    while k < a.Length
      invariant 0 <= k <= a.Length
      invariant a[..] == order
      invariant forall m :: 0 <= m < k ==> out[m] == a[m].path
    {
      out[k] := a[k].path;
      k := k + 1;
    }
    files := out[..];
  }
}
