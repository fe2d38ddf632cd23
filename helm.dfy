/**
 * The argument vector `helm template` is run with (the argument
 * construction at the top of Template in internal/pkg/helm/helm.go):
 * "template", the release name when there is one, the chart path, a
 * "--values" pair per values file in list order, then a "--set" pair per
 * entry of the set-values map in the map's iteration order.
 */
module Helm {

  datatype RenderOptions = RenderOptions(
    releaseName: string,
    chartPath: string,
    valuesFiles: seq<string>,
    setValues: map<string, string>)

  /** The "--values f" pairs for `files`, in order. */
  function ValuesArgs(files: seq<string>): seq<string>
    decreases |files|
  {
    if files == [] then []
    else ValuesArgs(files[..|files| - 1]) + ["--values", files[|files| - 1]]
  }

  /** strings.Join([key, value], "="). */
  function SetValue(key: string, value: string): string {
    key + "=" + value
  }

  /** The "--set key=value" pairs for the entries of `m` visited in the order `keys`. */
  function SetArgs(keys: seq<string>, m: map<string, string>): seq<string>
    requires forall k :: k in keys ==> k in m
    decreases |keys|
  {
    if keys == [] then []
    else
      var k := keys[|keys| - 1];
      SetArgs(keys[..|keys| - 1], m) + ["--set", SetValue(k, m[k])]
  }

  /** `keys` visits every key of `m` exactly once: one possible map iteration order. */
  predicate Enumerates(keys: seq<string>, m: map<string, string>) {
    && (forall k :: k in keys ==> k in m)
    && (forall k :: k in m ==> k in keys)
    && (forall i, j :: 0 <= i < j < |keys| ==> keys[i] != keys[j])
  }

  function Head(opts: RenderOptions): seq<string> {
    ["template"] + (if opts.releaseName != "" then [opts.releaseName] else []) + [opts.chartPath]
  }

  /** The whole argument vector when the set-values map is visited in the order `keys`. */
  function ArgsFor(opts: RenderOptions, keys: seq<string>): seq<string>
    requires forall k :: k in keys ==> k in opts.setValues
  {
    Head(opts) + ValuesArgs(opts.valuesFiles) + SetArgs(keys, opts.setValues)
  }

  /** Template's argument construction; `keys` is the order the map loop happened to visit. */
  method TemplateArgs(opts: RenderOptions) returns (args: seq<string>, ghost keys: seq<string>)
    ensures Enumerates(keys, opts.setValues)
    ensures args == ArgsFor(opts, keys)
    ensures |args| == |Head(opts)| + 2 * |opts.valuesFiles| + 2 * |opts.setValues|
    ensures args[..|Head(opts)| + 2 * |opts.valuesFiles|] == Head(opts) + ValuesArgs(opts.valuesFiles)
  {
    args := ["template"];
    if opts.releaseName != "" {
      args := args + [opts.releaseName];
    }
    args := args + [opts.chartPath];
    var values := ValuesLoop(opts.valuesFiles);
    var sets;
    sets, keys := SetLoop(opts.setValues);
    args := args + values + sets;
    ValuesArgsLayout(opts.valuesFiles);
    assert args[..|Head(opts)| + 2 * |opts.valuesFiles|] == Head(opts) + values;
  }

  /** The loop over the values files. */
  method ValuesLoop(files: seq<string>) returns (args: seq<string>)
    ensures args == ValuesArgs(files)
  {
    args := [];
    var i := 0;
    while i < |files|
      invariant 0 <= i <= |files|
      invariant args == ValuesArgs(files[..i])
    {
      assert files[..i + 1][..i] == files[..i];
      args := args + ["--values", files[i]];
      i := i + 1;
    }
    assert files[..i] == files;
  }

  /** The loop over the set-values map, visiting its keys in some order. */
  method SetLoop(m: map<string, string>) returns (args: seq<string>, ghost keys: seq<string>)
    ensures Enumerates(keys, m)
    ensures args == SetArgs(keys, m)
    ensures |args| == 2 * |m|
  {
    var remaining := m.Keys;
    args := [];
    keys := [];
    while remaining != {}
      invariant remaining <= m.Keys
      invariant forall k :: k in keys ==> k in m && k !in remaining
      invariant forall k :: k in m ==> k in keys || k in remaining
      invariant forall p, q :: 0 <= p < q < |keys| ==> keys[p] != keys[q]
      invariant args == SetArgs(keys, m)
      decreases |remaining|
    {
      var k :| k in remaining;
      assert (keys + [k])[..|keys|] == keys;
      args := args + ["--set", SetValue(k, m[k])];
      keys := keys + [k];
      remaining := remaining - {k};
    }
    SetArgsLayout(keys, m);
    EnumerationLength(keys, m);
  }

  lemma {:induction false} ValuesArgsLayout(files: seq<string>)
    ensures |ValuesArgs(files)| == 2 * |files|
    ensures forall i :: 0 <= i < |files| ==> ValuesArgs(files)[2 * i] == "--values" && ValuesArgs(files)[2 * i + 1] == files[i]
    decreases |files|
  {
    if files != [] {
      var init := files[..|files| - 1];
      ValuesArgsLayout(init);
      assert forall i :: 0 <= i < |init| ==> init[i] == files[i];
    }
  }

  lemma {:induction false} SetArgsLayout(keys: seq<string>, m: map<string, string>)
    requires forall k :: k in keys ==> k in m
    ensures |SetArgs(keys, m)| == 2 * |keys|
    ensures forall j :: 0 <= j < |keys| ==> SetArgs(keys, m)[2 * j] == "--set" && SetArgs(keys, m)[2 * j + 1] == SetValue(keys[j], m[keys[j]])
    decreases |keys|
  {
    if keys != [] {
      var init := keys[..|keys| - 1];
      SetArgsLayout(init, m);
      assert forall j :: 0 <= j < |init| ==> init[j] == keys[j];
    }
  }

  /** A list of distinct keys is as long as the set it enumerates. */
  lemma EnumerationLength(keys: seq<string>, m: map<string, string>)
    requires Enumerates(keys, m)
    ensures |keys| == |m|
  {
    DistinctCount(keys);
    assert m.Keys == set k | k in keys;
  }

  /** A list without repetitions has as many elements as its set. */
  lemma {:induction false} DistinctCount(keys: seq<string>)
    requires forall i, j :: 0 <= i < j < |keys| ==> keys[i] != keys[j]
    ensures |set k | k in keys| == |keys|
    decreases |keys|
  {
    if keys != [] {
      var init := keys[..|keys| - 1];
      var last := keys[|keys| - 1];
      DistinctCount(init);
      assert last !in init by {
        forall i | 0 <= i < |init| ensures init[i] != last {
          assert init[i] == keys[i];
        }
      }
      assert (set k | k in keys) == (set k | k in init) + {last} by {
        assert keys == init + [last];
      }
    }
  }

  /**
   * Nothing but the listed arguments: the length is 2 + (1 if the release
   * is named) + 2 * |values files| + 2 * |setters|.
   */
  lemma ArgsLength(opts: RenderOptions, keys: seq<string>)
    requires Enumerates(keys, opts.setValues)
    ensures |ArgsFor(opts, keys)| == 2 + (if opts.releaseName != "" then 1 else 0) + 2 * |opts.valuesFiles| + 2 * |opts.setValues|
  {
    ValuesArgsLayout(opts.valuesFiles);
    SetArgsLayout(keys, opts.setValues);
    EnumerationLength(keys, opts.setValues);
  }

  /** "template" first, the release name next only when it is non-empty, then the chart path. */
  lemma ArgsHead(opts: RenderOptions, keys: seq<string>)
    requires Enumerates(keys, opts.setValues)
    ensures var args := ArgsFor(opts, keys);
            var named := if opts.releaseName != "" then 1 else 0;
            && |args| >= 2 + named
            && args[0] == "template"
            && (opts.releaseName != "" ==> args[1] == opts.releaseName)
            && args[1 + named] == opts.chartPath
  {
  }

  /** Each values file follows a "--values" flag, in list order, right after the chart path. */
  lemma ArgsValues(opts: RenderOptions, keys: seq<string>, i: nat)
    requires Enumerates(keys, opts.setValues) && i < |opts.valuesFiles|
    ensures var v := |Head(opts)| + 2 * i;
            && v + 1 < |ArgsFor(opts, keys)|
            && ArgsFor(opts, keys)[v] == "--values"
            && ArgsFor(opts, keys)[v + 1] == opts.valuesFiles[i]
  {
    ValuesArgsLayout(opts.valuesFiles);
    var vals := ValuesArgs(opts.valuesFiles);
    var args := ArgsFor(opts, keys);
    assert args == Head(opts) + vals + SetArgs(keys, opts.setValues);
    assert args[|Head(opts)| + 2 * i] == vals[2 * i];
    assert args[|Head(opts)| + 2 * i + 1] == vals[2 * i + 1];
  }

  /** Each setter follows a "--set" flag as key=value, after every values file. */
  lemma ArgsSets(opts: RenderOptions, keys: seq<string>, j: nat)
    requires Enumerates(keys, opts.setValues) && j < |keys|
    ensures var s := |Head(opts)| + 2 * |opts.valuesFiles| + 2 * j;
            && s + 1 < |ArgsFor(opts, keys)|
            && ArgsFor(opts, keys)[s] == "--set"
            && ArgsFor(opts, keys)[s + 1] == SetValue(keys[j], opts.setValues[keys[j]])
  {
    ValuesArgsLayout(opts.valuesFiles);
    SetArgsLayout(keys, opts.setValues);
    var vals := ValuesArgs(opts.valuesFiles);
    var sets := SetArgs(keys, opts.setValues);
    var args := ArgsFor(opts, keys);
    var base := |Head(opts)| + |vals|;
    assert args == (Head(opts) + vals) + sets;
    assert args[base + 2 * j] == sets[2 * j];
    assert args[base + 2 * j + 1] == sets[2 * j + 1];
  }

  /** Every setter is passed exactly once, whatever order the map is visited in. */
  lemma EachSetterOnce(keys: seq<string>, m: map<string, string>, key: string) returns (j: nat)
    requires Enumerates(keys, m) && key in m
    ensures j < |keys| && keys[j] == key
    ensures forall j' :: 0 <= j' < |keys| && j' != j ==> keys[j'] != key
  {
    j :| 0 <= j < |keys| && keys[j] == key;
  }
}
