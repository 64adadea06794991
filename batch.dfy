/** `parse_files`: every template is merged against its own `.env` first,
    which captures every existing named value, and only then is every
    template rendered, so every rendered call of a pair gets the value the
    cache holds after the first pass (the first capture in path order); the
    rendered text of each template path goes to the `.env` of its directory. */
module Batch {
  import opened Wrappers
  import opened Errors
  import opened Dicts
  import opened Paths
  import opened Declarations
  import opened Snapshot
  import opened NamedValues
  import opened Merge
  import opened MergeProperties
  import opened Render

  /** The files a run reads: each template path's lines as the template
      pattern parses them (`None` when the file cannot be read), and what
      each environment file path holds. */
  datatype FileSystem = FileSystem(templates: string -> Option<seq<TemplateLine>>, dotenvs: string -> DotenvFile)

  /** The snapshot the first pass reads for a template: none in override
      mode, else its `.env` as `get_dotenv_dict` reads it. */
  function SnapshotFor(fs: FileSystem, path: string, override: bool): (r: Result<Env, Error>)
    ensures r.Success? ==> r.value.Valid()
    ensures override ==> r == Success(Empty())
  {
    if override then Success(Empty()) else DotenvDict(DotenvPath(path), fs.dotenvs(DotenvPath(path)))
  }

  /** One template of the first pass, lines 205-212: its snapshot is read,
      then its lines are merged against it. */
  function MergeStep(variables: map<string, Option<string>>, fs: FileSystem, path: string, override: bool)
    : (out: (Result<seq<Segment>, Error>, map<string, Option<string>>))
    ensures out.0.Failure? ==> out.1 == variables
  {
    match SnapshotFor(fs, path, override)
    case Failure(e) => (Failure(e), variables)
    case Success(current) =>
      match fs.templates(path)
      case None => (Failure(ReadError(path)), variables)
      case Some(template) => (Success(Merged(template, current)), Captures(variables, template, current))
  }

  /** The loop of lines 204-220: the intermediate templates by path, in the
      order paths first occur, and the cache after the captures. */
  function FirstPass(variables: map<string, Option<string>>, fs: FileSystem, paths: seq<string>, override: bool)
    : (out: (Result<Dict<string, seq<Segment>>, Error>, map<string, Option<string>>))
    ensures out.0.Success? ==> out.0.value.Valid()
  {
    if paths == [] then (Success(Empty()), variables)
    else
      var before := FirstPass(variables, fs, paths[..|paths| - 1], override);
      var path := paths[|paths| - 1];
      if before.0.Failure? then before
      else
        var step := MergeStep(before.1, fs, path, override);
        if step.0.Failure? then (Failure(step.0.error), step.1)
        else (Success(before.0.value.Put(path, step.0.value)), step.1)
  }

  /** The loop of lines 225-235: each template rendered in turn, the state
      running on from one render to the next. */
  function SecondPass(st: GlobalState, caps: Capabilities, templates: seq<(string, seq<Segment>)>)
    : (out: (Result<seq<(string, seq<Piece>)>, Error>, GlobalState))
    ensures out.0.Success? ==> |out.0.value| == |templates| && forall i :: 0 <= i < |templates| ==> out.0.value[i].0 == templates[i].0
  {
    if templates == [] then (Success([]), st)
    else
      var before := SecondPass(st, caps, templates[..|templates| - 1]);
      var (path, segments) := templates[|templates| - 1];
      if before.0.Failure? then before
      else
        var rendered := RenderSpec(before.1, caps, segments);
        if rendered.0.Failure? then (Failure(rendered.0.error), rendered.1)
        else (Success(before.0.value + [(path, rendered.0.value)]), rendered.1)
  }

  /** The second pass succeeds when every template renders: no directive
      carries argument text and the fake-data library answers every call. */
  lemma {:induction false} SecondPassSucceeds(st: GlobalState, caps: Capabilities, templates: seq<(string, seq<Segment>)>)
    requires forall g, k, n :: caps.fake(g, k, n).Some?
    requires forall i :: 0 <= i < |templates| ==> PlainCalls(templates[i].1)
    ensures SecondPass(st, caps, templates).0.Success?
  {
    if templates != [] {
      var init := templates[..|templates| - 1];
      assert forall i :: 0 <= i < |init| ==> init[i] == templates[i];
      SecondPassSucceeds(st, caps, init);
      RenderSucceeds(SecondPass(st, caps, init).1, caps, templates[|templates| - 1].1);
    }
  }

  function Entries<V>(d: Dict<string, V>): seq<(string, V)>
    requires d.Valid()
  {
    seq(|d.keys|, i requires 0 <= i < |d.keys| => (d.keys[i], d.items[d.keys[i]]))
  }

  /** Lines 237-241: the environment file path and text of every rendered
      template, in rendering order. */
  function Writes(rendered: seq<(string, seq<Piece>)>): (w: seq<(string, string)>)
    ensures |w| == |rendered|
    ensures forall i :: 0 <= i < |rendered| ==> w[i].0 == DotenvPath(rendered[i].0)
  {
    Destinations(Texts(rendered))
  }

  /** Each text paired with the `.env` of its template's directory. */
  function Destinations(texts: seq<(string, string)>): seq<(string, string)> {
    seq(|texts|, j requires 0 <= j < |texts| => (DotenvPath(texts[j].0), texts[j].1))
  }

  /** The whole run: on success the files to write; on failure nothing is
      written, and the state is the one the failing step left. */
  function ParseFilesSpec(st: GlobalState, caps: Capabilities, fs: FileSystem, paths: seq<string>, override: bool)
    : (out: (Result<seq<(string, string)>, Error>, GlobalState))
  {
    var first := FirstPass(st.variables, fs, paths, override);
    if first.0.Failure? then (Failure(first.0.error), GlobalState(first.1, st.draws))
    else
      var second := SecondPass(GlobalState(first.1, st.draws), caps, Entries(first.0.value));
      if second.0.Failure? then (Failure(second.0.error), second.1)
      else (Success(Writes(second.0.value)), second.1)
  }

  /** The rendered text of each template, by path. */
  function Texts(rendered: seq<(string, seq<Piece>)>): seq<(string, string)> {
    seq(|rendered|, i requires 0 <= i < |rendered| => (rendered[i].0, Flatten(rendered[i].1)))
  }

  lemma {:induction false} FirstPassFailurePersists(variables: map<string, Option<string>>, fs: FileSystem, paths: seq<string>, override: bool, n: nat)
    requires n <= |paths| && FirstPass(variables, fs, paths[..n], override).0.Failure?
    ensures FirstPass(variables, fs, paths, override) == FirstPass(variables, fs, paths[..n], override)
    decreases |paths|
  {
    if n < |paths| {
      var init := paths[..|paths| - 1];
      assert init[..n] == paths[..n];
      FirstPassFailurePersists(variables, fs, init, override, n);
    } else {
      assert paths[..n] == paths;
    }
  }

  lemma {:induction false} SecondPassFailurePersists(st: GlobalState, caps: Capabilities, templates: seq<(string, seq<Segment>)>, n: nat)
    requires n <= |templates| && SecondPass(st, caps, templates[..n]).0.Failure?
    ensures SecondPass(st, caps, templates) == SecondPass(st, caps, templates[..n])
    decreases |templates|
  {
    if n < |templates| {
      var init := templates[..|templates| - 1];
      assert init[..n] == templates[..n];
      SecondPassFailurePersists(st, caps, init, n);
    } else {
      assert templates[..n] == templates;
    }
  }

  /** Lines 205-212 for one template, against the module-level cache. */
  method MergeTemplate(globals: Globals, fs: FileSystem, path: string, override: bool) returns (r: Result<seq<Segment>, Error>)
    modifies globals
    ensures (r, globals.variables) == MergeStep(old(globals.variables), fs, path, override)
    ensures globals.draws == old(globals.draws)
  {
    var current: Env;
    if override {
      current := Empty();
    } else {
      var read := GetDotenvDict(DotenvPath(path), fs.dotenvs(DotenvPath(path)));
      if read.Failure? {
        return Failure(read.error);
      }
      current := read.value;
    }
    var template := fs.templates(path);
    if template.None? {
      return Failure(ReadError(path));
    }
    var buffer := ParseStream(globals, template.value, current);
    r := Success(buffer);
  }

  /** Lines 204-220 against the module-level cache. */
  method FirstPassRun(globals: Globals, fs: FileSystem, paths: seq<string>, override: bool)
    returns (r: Result<Dict<string, seq<Segment>>, Error>)
    modifies globals
    ensures (r, globals.variables) == FirstPass(old(globals.variables), fs, paths, override)
    ensures globals.draws == old(globals.draws)
  {
    ghost var start := globals.variables;
    var templates: Dict<string, seq<Segment>> := Empty();
    for i := 0 to |paths|
      invariant FirstPass(start, fs, paths[..i], override) == (Success(templates), globals.variables)
      invariant globals.draws == old(globals.draws)
    {
      assert paths[..i + 1][..i] == paths[..i];
      var buffer := MergeTemplate(globals, fs, paths[i], override);
      if buffer.Failure? {
        FirstPassFailurePersists(start, fs, paths, override, i + 1);
        return Failure(buffer.error);
      }
      templates := templates.Put(paths[i], buffer.value);
    }
    assert paths[..|paths|] == paths;
    r := Success(templates);
  }

  /** Lines 225-235 against the module-level state. */
  method SecondPassRun(globals: Globals, caps: Capabilities, templates: seq<(string, seq<Segment>)>)
    returns (r: Result<seq<(string, string)>, Error>)
    modifies globals
    ensures var out := SecondPass(old(globals.State()), caps, templates);
      && globals.State() == out.1
      && (r.Success? <==> out.0.Success?)
      && (r.Success? ==> r.value == Texts(out.0.value))
      && (r.Failure? ==> r.error == out.0.error)
  {
    ghost var start := globals.State();
    ghost var rendered: seq<(string, seq<Piece>)> := [];
    var texts: seq<(string, string)> := [];
    for i := 0 to |templates|
      invariant SecondPass(start, caps, templates[..i]) == (Success(rendered), globals.State())
      invariant texts == Texts(rendered)
    {
      ghost var before := globals.State();
      var (path, segments) := templates[i];
      var text := RenderTemplate(globals, caps, segments);
      SecondPassStep(start, caps, templates, i, rendered, before);
      if text.Failure? {
        SecondPassFailurePersists(start, caps, templates, i + 1);
        return Failure(text.error);
      }
      ghost var pieces := RenderSpec(before, caps, segments).0.value;
      TextsSnoc(rendered, path, pieces);
      rendered := rendered + [(path, pieces)];
      texts := texts + [(path, text.value)];
    }
    assert templates[..|templates|] == templates;
    r := Success(texts);
  }

  /** One more template on a successful prefix of the second pass. */
  lemma SecondPassStep(start: GlobalState, caps: Capabilities, templates: seq<(string, seq<Segment>)>, i: nat,
                       rendered: seq<(string, seq<Piece>)>, st: GlobalState)
    requires i < |templates| && SecondPass(start, caps, templates[..i]) == (Success(rendered), st)
    ensures var out := RenderSpec(st, caps, templates[i].1);
      SecondPass(start, caps, templates[..i + 1]) ==
        if out.0.Failure? then (Failure(out.0.error), out.1)
        else (Success(rendered + [(templates[i].0, out.0.value)]), out.1)
  {
    assert templates[..i + 1][..i] == templates[..i];
  }

  lemma TextsSnoc(rendered: seq<(string, seq<Piece>)>, path: string, pieces: seq<Piece>)
    ensures Texts(rendered + [(path, pieces)]) == Texts(rendered) + [(path, Flatten(pieces))]
  {
  }

  /** `parse_files(templates_paths, override)`: the files it writes, in
      order, are the result; writing them is left to the caller. */
  method ParseFiles(globals: Globals, caps: Capabilities, fs: FileSystem, paths: seq<string>, override: bool)
    returns (r: Result<seq<(string, string)>, Error>)
    modifies globals
    ensures (r, globals.State()) == ParseFilesSpec(old(globals.State()), caps, fs, paths, override)
  {
    var first := FirstPassRun(globals, fs, paths, override);
    if first.Failure? {
      return Failure(first.error);
    }
    var rendered := SecondPassRun(globals, caps, Entries(first.value));
    if rendered.Failure? {
      return Failure(rendered.error);
    }
    var writes := PlanWrites(rendered.value);
    r := Success(writes);
  }

  /** The environment file path of every rendered text. */
  method PlanWrites(texts: seq<(string, string)>) returns (writes: seq<(string, string)>)
    ensures writes == Destinations(texts)
  {
    writes := [];
    for i := 0 to |texts|
      invariant |writes| == i
      invariant forall j :: 0 <= j < i ==> writes[j] == (DotenvPath(texts[j].0), texts[j].1)
    {
      writes := writes + [(DotenvPath(texts[i].0), texts[i].1)];
    }
  }
}
