/** What a run of `parse_files` promises: override mode never looks at the
    existing files, every template path is rendered once, in first-occurrence
    order, against its own `.env`; every rendered call of a pair gets the value
    the cache holds after the first pass (the first capture in path order,
    `FirstPassFirstCaptureWins`), and a declaration whose variable its own
    `.env` already holds keeps that file's value. */
module BatchProperties {
  import opened Wrappers
  import opened Text
  import opened Dicts
  import opened Paths
  import opened Declarations
  import opened Snapshot
  import opened NamedValues
  import opened Merge
  import opened MergeProperties
  import opened Render
  import opened Batch

  /** In override mode the existing environment files are never read and
      nothing is captured. */
  lemma {:induction false} OverrideIgnoresDotenvs(variables: map<string, Option<string>>, fs: FileSystem,
                                                  dotenvs: string -> DotenvFile, paths: seq<string>)
    ensures FirstPass(variables, fs, paths, true) == FirstPass(variables, FileSystem(fs.templates, dotenvs), paths, true)
    ensures FirstPass(variables, fs, paths, true).1 == variables
  {
    if paths != [] {
      var init := paths[..|paths| - 1];
      OverrideIgnoresDotenvs(variables, fs, dotenvs, init);
      var path := paths[|paths| - 1];
      if fs.templates(path).Some? {
        CapturesWithoutSnapshot(variables, fs.templates(path).value);
      }
    }
  }

  /** A whole run in override mode gives the same files and state whatever the
      existing environment files hold. */
  lemma OverrideRun(st: GlobalState, caps: Capabilities, fs: FileSystem, dotenvs: string -> DotenvFile, paths: seq<string>)
    ensures ParseFilesSpec(st, caps, fs, paths, true) == ParseFilesSpec(st, caps, FileSystem(fs.templates, dotenvs), paths, true)
  {
    OverrideIgnoresDotenvs(st.variables, fs, dotenvs, paths);
  }

  /** A successful first pass over `paths` is a successful one over all but
      the last path, followed by the merge of the last. */
  lemma FirstPassLast(variables: map<string, Option<string>>, fs: FileSystem, paths: seq<string>, override: bool)
    requires paths != [] && FirstPass(variables, fs, paths, override).0.Success?
    ensures var init := paths[..|paths| - 1];
      var path := paths[|paths| - 1];
      var before := FirstPass(variables, fs, init, override);
      && before.0.Success? && SnapshotFor(fs, path, override).Success? && fs.templates(path).Some?
      && FirstPass(variables, fs, paths, override).0.value ==
           before.0.value.Put(path, Merged(fs.templates(path).value, SnapshotFor(fs, path, override).value))
      && FirstPass(variables, fs, paths, override).1 ==
           Captures(before.1, fs.templates(path).value, SnapshotFor(fs, path, override).value)
  {
  }

  /** Each template path is kept once, at its first occurrence. */
  lemma {:induction false} FirstPassKeys(variables: map<string, Option<string>>, fs: FileSystem, paths: seq<string>, override: bool)
    requires FirstPass(variables, fs, paths, override).0.Success?
    ensures FirstPass(variables, fs, paths, override).0.value.keys == Dedup(paths)
  {
    if paths != [] {
      var init := paths[..|paths| - 1];
      var path := paths[|paths| - 1];
      FirstPassLast(variables, fs, paths, override);
      FirstPassKeys(variables, fs, init, override);
      PutKeepsFirstOccurrence(FirstPass(variables, fs, init, override).0.value, paths,
        Merged(fs.templates(path).value, SnapshotFor(fs, path, override).value));
    }
  }

  lemma PutKeepsFirstOccurrence<V>(d: Dict<string, V>, xs: seq<string>, v: V)
    requires xs != [] && d.Valid() && d.keys == Dedup(xs[..|xs| - 1])
    ensures d.Put(xs[|xs| - 1], v).keys == Dedup(xs)
  {
    var init, x := xs[..|xs| - 1], xs[|xs| - 1];
    SnocSplit(xs);
    DedupSnoc(init, x);
    DedupMembers(init);
    assert x in d.items <==> x in d.keys;
  }

  /** The intermediate template of each path is the merge of its own lines
      against its own snapshot; a path given twice merges to the same text. */
  lemma {:induction false} FirstPassEntries(variables: map<string, Option<string>>, fs: FileSystem, paths: seq<string>, override: bool)
    requires FirstPass(variables, fs, paths, override).0.Success?
    ensures var templates := FirstPass(variables, fs, paths, override).0.value;
      forall p :: p in templates.items ==>
        && fs.templates(p).Some? && SnapshotFor(fs, p, override).Success?
        && templates.items[p] == Merged(fs.templates(p).value, SnapshotFor(fs, p, override).value)
  {
    if paths != [] {
      FirstPassEntries(variables, fs, paths[..|paths| - 1], override);
    }
  }

  /** The first pass never overwrites a cached value. */
  lemma {:induction false} FirstPassExtends(variables: map<string, Option<string>>, fs: FileSystem, paths: seq<string>, override: bool)
    ensures var after := FirstPass(variables, fs, paths, override).1;
      forall k :: k in variables ==> k in after && after[k] == variables[k]
  {
    if paths != [] {
      var init := paths[..|paths| - 1];
      FirstPassExtends(variables, fs, init, override);
      var before := FirstPass(variables, fs, init, override);
      var path := paths[|paths| - 1];
      if before.0.Success? && SnapshotFor(fs, path, override).Success? && fs.templates(path).Some? {
        CapturesKeepCached(before.1, fs.templates(path).value, SnapshotFor(fs, path, override).value);
      }
    }
  }

  /** Template `path` captures an existing value under `key`. */
  predicate CapturedBy(fs: FileSystem, path: string, override: bool, key: string) {
    && SnapshotFor(fs, path, override).Success? && fs.templates(path).Some?
    && exists i :: 0 <= i < |fs.templates(path).value|
         && CapturesAt(fs.templates(path).value, SnapshotFor(fs, path, override).value, i, key)
  }

  /** After the first pass, every key some template of the run captures is
      cached. */
  lemma {:induction false} FirstPassCaptures(variables: map<string, Option<string>>, fs: FileSystem, paths: seq<string>,
                                             override: bool, j: nat, key: string)
    requires FirstPass(variables, fs, paths, override).0.Success?
    requires j < |paths| && CapturedBy(fs, paths[j], override, key)
    ensures key in FirstPass(variables, fs, paths, override).1
  {
    var init := paths[..|paths| - 1];
    var path := paths[|paths| - 1];
    FirstPassLast(variables, fs, paths, override);
    var before := FirstPass(variables, fs, init, override).1;
    if j < |init| {
      assert init[j] == paths[j];
      FirstPassCaptures(variables, fs, init, override, j, key);
      CapturesKeepCached(before, fs.templates(path).value, SnapshotFor(fs, path, override).value);
    } else {
      assert j == |paths| - 1;
      CapturedByLast(before, fs, paths[j], override, key);
    }
  }

  /** A key the run did not start with is cached after the first pass only
      if some template of the run captures it. */
  lemma {:induction false} FirstPassCachedOnlyCaptured(variables: map<string, Option<string>>, fs: FileSystem,
                                                       paths: seq<string>, override: bool, key: string)
    requires FirstPass(variables, fs, paths, override).0.Success?
    requires key !in variables && key in FirstPass(variables, fs, paths, override).1
    ensures exists j :: 0 <= j < |paths| && CapturedBy(fs, paths[j], override, key)
  {
    var init := paths[..|paths| - 1];
    var path := paths[|paths| - 1];
    FirstPassLast(variables, fs, paths, override);
    var before := FirstPass(variables, fs, init, override).1;
    var t, c := fs.templates(path).value, SnapshotFor(fs, path, override).value;
    CapturesFirstWins(before, t, c, key);
    if key in before {
      FirstPassCachedOnlyCaptured(variables, fs, init, override, key);
      var j :| 0 <= j < |init| && CapturedBy(fs, init[j], override, key);
      assert init[j] == paths[j];
    } else {
      assert CapturedBy(fs, paths[|paths| - 1], override, key);
    }
  }

  /** Which value the first pass caches for a key the run did not start with:
      the existing value of the first line that captures it, in the first
      template, in path order, that captures it at all. A later `.env` that
      holds another value for the same pair does not change it. */
  lemma {:induction false} FirstPassFirstCaptureWins(variables: map<string, Option<string>>, fs: FileSystem,
                                                     paths: seq<string>, override: bool, key: string, j: nat, i: nat)
    requires FirstPass(variables, fs, paths, override).0.Success?
    requires key !in variables
    requires j < |paths| && CapturedBy(fs, paths[j], override, key)
    requires forall j' :: 0 <= j' < j ==> !CapturedBy(fs, paths[j'], override, key)
    requires var t, c := fs.templates(paths[j]).value, SnapshotFor(fs, paths[j], override).value;
      && i < |t| && CapturesAt(t, c, i, key)
      && forall i' :: 0 <= i' < i ==> !CapturesAt(t, c, i', key)
    ensures var t, c := fs.templates(paths[j]).value, SnapshotFor(fs, paths[j], override).value;
      var after := FirstPass(variables, fs, paths, override).1;
      key in after && after[key] == c.items[t[i].decl.variable].value
    decreases |paths|, 1
  {
    if j < |paths| - 1 {
      FirstCaptureBeforeLast(variables, fs, paths, override, key, j, i);
    } else {
      FirstCaptureInLast(variables, fs, paths, override, key, j, i);
    }
  }

  /** The first capture lies in an earlier template: it is cached before the
      last template is merged, and kept. */
  lemma {:induction false} FirstCaptureBeforeLast(variables: map<string, Option<string>>, fs: FileSystem,
                                                  paths: seq<string>, override: bool, key: string, j: nat, i: nat)
    requires FirstPass(variables, fs, paths, override).0.Success?
    requires key !in variables
    requires j < |paths| && CapturedBy(fs, paths[j], override, key)
    requires forall j' :: 0 <= j' < j ==> !CapturedBy(fs, paths[j'], override, key)
    requires var t, c := fs.templates(paths[j]).value, SnapshotFor(fs, paths[j], override).value;
      && i < |t| && CapturesAt(t, c, i, key)
      && forall i' :: 0 <= i' < i ==> !CapturesAt(t, c, i', key)
    ensures var t, c := fs.templates(paths[j]).value, SnapshotFor(fs, paths[j], override).value;
      var after := FirstPass(variables, fs, paths, override).1;
      key in after && after[key] == c.items[t[i].decl.variable].value
    requires j < |paths| - 1
    decreases |paths|, 0
  {
    var init := paths[..|paths| - 1];
    var path := paths[|paths| - 1];
    FirstPassLast(variables, fs, paths, override);
    PrefixIndex(paths);
    FirstPassFirstCaptureWins(variables, fs, init, override, key, j, i);
    CapturesKeepCached(FirstPass(variables, fs, init, override).1, fs.templates(path).value, SnapshotFor(fs, path, override).value);
  }

  /** The first capture lies in the last template: no earlier template
      cached the key, so the last merge caches its first capture. */
  lemma FirstCaptureInLast(variables: map<string, Option<string>>, fs: FileSystem,
                           paths: seq<string>, override: bool, key: string, j: nat, i: nat)
    requires FirstPass(variables, fs, paths, override).0.Success?
    requires key !in variables
    requires j < |paths| && CapturedBy(fs, paths[j], override, key)
    requires forall j' :: 0 <= j' < j ==> !CapturedBy(fs, paths[j'], override, key)
    requires var t, c := fs.templates(paths[j]).value, SnapshotFor(fs, paths[j], override).value;
      && i < |t| && CapturesAt(t, c, i, key)
      && forall i' :: 0 <= i' < i ==> !CapturesAt(t, c, i', key)
    ensures var t, c := fs.templates(paths[j]).value, SnapshotFor(fs, paths[j], override).value;
      var after := FirstPass(variables, fs, paths, override).1;
      key in after && after[key] == c.items[t[i].decl.variable].value
    requires j == |paths| - 1
  {
    var init := paths[..|paths| - 1];
    FirstPassLast(variables, fs, paths, override);
    var before := FirstPass(variables, fs, init, override).1;
    if key in before {
      FirstPassCachedOnlyCaptured(variables, fs, init, override, key);
      assert false;
    }
    CapturesFirstWins(before, fs.templates(paths[j]).value, SnapshotFor(fs, paths[j], override).value, key);
  }

  lemma CapturedByLast(before: map<string, Option<string>>, fs: FileSystem, path: string, override: bool, key: string)
    requires CapturedBy(fs, path, override, key)
    ensures key in Captures(before, fs.templates(path).value, SnapshotFor(fs, path, override).value)
  {
    CapturesFirstWins(before, fs.templates(path).value, SnapshotFor(fs, path, override).value, key);
  }

  /** The second pass never overwrites a cached value. */
  lemma {:induction false} SecondPassExtends(st: GlobalState, caps: Capabilities, templates: seq<(string, seq<Segment>)>)
    ensures var final := SecondPass(st, caps, templates).1;
      forall k :: k in st.variables ==> k in final.variables && final.variables[k] == st.variables[k]
  {
    if templates != [] {
      var init := templates[..|templates| - 1];
      SecondPassExtends(st, caps, init);
      RenderExtends(SecondPass(st, caps, init).1, caps, templates[|templates| - 1].1);
    }
  }

  /** Across all rendered templates, every named value is the final cached
      value of its key, and a key cached when rendering starts keeps that
      value everywhere. */
  lemma {:induction false} SecondPassConsistency(st: GlobalState, caps: Capabilities, templates: seq<(string, seq<Segment>)>)
    requires SecondPass(st, caps, templates).0.Success?
    ensures var (r, final) := SecondPass(st, caps, templates);
      forall t, i :: 0 <= t < |r.value| && 0 <= i < |r.value[t].1| && r.value[t].1[i].Value? && r.value[t].1[i].resolved.key.Some? ==>
        var k := r.value[t].1[i].resolved.key.value;
        && k in final.variables && r.value[t].1[i].resolved.raw == OptionStr(final.variables[k])
        && (k in st.variables ==> r.value[t].1[i].resolved.raw == OptionStr(st.variables[k]))
  {
    if templates != [] {
      var init := templates[..|templates| - 1];
      SecondPassConsistency(st, caps, init);
      SecondPassExtends(st, caps, init);
      var middle := SecondPass(st, caps, init).1;
      var segments := templates[|templates| - 1].1;
      RenderNamedConsistency(middle, caps, segments);
      RenderExtends(middle, caps, segments);
    }
  }

  /** The promise of the two passes: every key some template of the run
      captures is cached before anything is rendered, and the value rendered
      for a `gen:name` pair, in every template of the run, is the one the
      cache holds after the first pass (which one that is, is stated by
      `FirstPassFirstCaptureWins`). When two `.env` files hold different
      values for one pair, only the first capture reaches the rendered
      calls; each file's own line keeps its own value. */
  lemma CapturedValuesReachEveryTemplate(st: GlobalState, caps: Capabilities, fs: FileSystem, paths: seq<string>, override: bool)
    requires ParseFilesSpec(st, caps, fs, paths, override).0.Success?
    ensures var first := FirstPass(st.variables, fs, paths, override);
      var (r, final) := SecondPass(GlobalState(first.1, st.draws), caps, Entries(first.0.value));
      && r.Success?
      && (forall j, key :: 0 <= j < |paths| && CapturedBy(fs, paths[j], override, key) ==> key in first.1)
      && forall t, i :: 0 <= t < |r.value| && 0 <= i < |r.value[t].1| && r.value[t].1[i].Value? && r.value[t].1[i].resolved.key.Some? ==>
        var k := r.value[t].1[i].resolved.key.value;
        && k in final.variables && r.value[t].1[i].resolved.raw == OptionStr(final.variables[k])
        && (k in first.1 ==> r.value[t].1[i].resolved.raw == OptionStr(first.1[k]))
  {
    var first := FirstPass(st.variables, fs, paths, override);
    forall j, key | 0 <= j < |paths| && CapturedBy(fs, paths[j], override, key) ensures key in first.1 {
      FirstPassCaptures(st.variables, fs, paths, override, j, key);
    }
    SecondPassConsistency(GlobalState(first.1, st.draws), caps, Entries(first.0.value));
  }

  /** One file is written per distinct template path, in first-occurrence
      order, to the `.env` of the template's directory. */
  lemma WritePlan(st: GlobalState, caps: Capabilities, fs: FileSystem, paths: seq<string>, override: bool)
    requires ParseFilesSpec(st, caps, fs, paths, override).0.Success?
    ensures var writes := ParseFilesSpec(st, caps, fs, paths, override).0.value;
      && |writes| == |Dedup(paths)|
      && forall i :: 0 <= i < |writes| ==> writes[i].0 == DotenvPath(Dedup(paths)[i])
  {
    FirstPassKeys(st.variables, fs, paths, override);
  }
}
