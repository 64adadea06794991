/** The second stage of a template: the Jinja template that the merge step
    built is rendered, and every `{{ dotenver(...) }}` expression becomes a
    call of `dotenver` with Python's argument binding. */
module Render {
  import opened Wrappers
  import opened Errors
  import opened Text
  import opened NamedValues
  import opened Merge

  /** The arguments a Jinja call expression evaluates to. */
  datatype Args = Args(positional: seq<PyValue>, keywords: seq<(string, PyValue)>)

  /** What lies outside the model: the fake-data library, and Jinja's parser
      and evaluator for the argument text of a directive (`None` when that
      text is not a valid, evaluable argument list). */
  datatype Capabilities = Capabilities(fake: Faker, interpret: string -> Option<Args>)

  /** The parameters of `dotenver` after Python has bound a call. */
  datatype Binding = Binding(name: PyValue, quotes: PyValue, escapeWith: PyValue, kwargs: Kwargs)

  /** The named parameters of `dotenver(generator, name=None, quotes=None,
      escape_with="\\", **kwargs)`, in order. */
  const Parameters: seq<string> := ["generator", "name", "quotes", "escape_with"]

  /** The positional arguments of a deferred call: the generator, the
      `gen:name` name when there is one, then those of the argument text. */
  function Positional(generator: string, name: Option<string>, args: Args): seq<PyValue> {
    [PyString(generator)] + (if name.Some? then [PyString(name.value)] else []) + args.positional
  }

  /** Binding is possible: no more positional arguments than parameters, no
      keyword given twice, and no keyword for a parameter already filled by
      position. */
  predicate Bindable(positional: seq<PyValue>, keywords: seq<(string, PyValue)>) {
    && |positional| <= |Parameters|
    && (forall i, j :: 0 <= i < j < |keywords| ==> keywords[i].0 != keywords[j].0)
    && (forall i :: 0 <= i < |keywords| ==> keywords[i].0 !in Parameters[..|positional|])
  }

  /** The value a call gives parameter `p` (at index `index`), if any. */
  function Argument(positional: seq<PyValue>, keywords: seq<(string, PyValue)>, p: string, index: nat): Option<PyValue>
    decreases |keywords|
  {
    if index < |positional| then Some(positional[index])
    else if keywords == [] then None
    else if keywords[0].0 == p then Some(keywords[0].1)
    else Argument(positional, keywords[1..], p, index)
  }

  function Otherwise(v: Option<PyValue>, default: PyValue): PyValue {
    if v.Some? then v.value else default
  }

  /** The keywords that name no parameter, in call order: `**kwargs`. */
  function Extra(keywords: seq<(string, PyValue)>): (extra: Kwargs)
    ensures forall i :: 0 <= i < |extra| ==> extra[i] in keywords && extra[i].0 !in Parameters
    ensures forall i :: 0 <= i < |keywords| && keywords[i].0 !in Parameters ==> keywords[i] in extra
  {
    if keywords == [] then []
    else (if keywords[0].0 in Parameters then [] else [keywords[0]]) + Extra(keywords[1..])
  }

  /** Python's binding of a deferred call to the signature of `dotenver`;
      every mismatch raises `TypeError`. */
  function Bind(generator: string, name: Option<string>, args: Args): (r: Result<Binding, Error>)
    ensures r.Success? <==> Bindable(Positional(generator, name, args), args.keywords)
    ensures r.Success? && name.Some? ==> r.value.name == PyString(name.value)
    ensures r.Success? ==> r.value.kwargs == Extra(args.keywords)
  {
    var positional := Positional(generator, name, args);
    if !Bindable(positional, args.keywords) then Failure(CallError)
    else Success(Binding(
      Otherwise(Argument(positional, args.keywords, "name", 1), PyNone),
      Otherwise(Argument(positional, args.keywords, "quotes", 2), PyNone),
      Otherwise(Argument(positional, args.keywords, "escape_with", 3), PyString("\\")),
      Extra(args.keywords)))
  }

  /** A directive with no argument text calls `dotenver` with the defaults:
      its name (or none), no quotes, a backslash as escape, no keywords. */
  lemma BindWithoutArguments(generator: string, name: Option<string>)
    ensures Bind(generator, name, Args([], [])) ==
      Success(Binding(if name.Some? then PyString(name.value) else PyNone, PyNone, PyString("\\"), []))
  {
    var positional := Positional(generator, name, Args([], []));
    assert |positional| <= 2;
  }

  /** A keyword argument fills its parameter when no positional argument
      did. */
  lemma {:induction false} ArgumentByKeyword(positional: seq<PyValue>, keywords: seq<(string, PyValue)>, p: string, index: nat, i: nat)
    requires index >= |positional| && i < |keywords| && keywords[i].0 == p
    requires forall j :: 0 <= j < i ==> keywords[j].0 != p
    ensures Argument(positional, keywords, p, index) == Some(keywords[i].1)
    decreases i
  {
    if i > 0 {
      ArgumentByKeyword(positional, keywords[1..], p, index, i - 1);
    }
  }

  /** A parameter named by no keyword and not filled by position has no
      argument. */
  lemma {:induction false} ArgumentAbsent(positional: seq<PyValue>, keywords: seq<(string, PyValue)>, p: string, index: nat)
    requires index >= |positional| && forall j :: 0 <= j < |keywords| ==> keywords[j].0 != p
    ensures Argument(positional, keywords, p, index).None?
    decreases |keywords|
  {
    if keywords != [] {
      ArgumentAbsent(positional, keywords[1..], p, index);
    }
  }

  /** A call such as `{{ dotenver('email', name='x', quotes="'") }}` from a
      directive without `gen:name`: `name`, `quotes` and `escape_with` take
      the keyword given for them, or else their defaults `None`, `None` and a
      backslash. A `name` keyword in the argument text thus does make the
      value named. */
  lemma BindKeywords(generator: string, keywords: seq<(string, PyValue)>)
    requires Bind(generator, None, Args([], keywords)).Success?
    ensures var b := Bind(generator, None, Args([], keywords)).value;
      && (forall i :: 0 <= i < |keywords| && keywords[i].0 == "name" ==> b.name == keywords[i].1)
      && ((forall i :: 0 <= i < |keywords| ==> keywords[i].0 != "name") ==> b.name == PyNone)
      && (forall i :: 0 <= i < |keywords| && keywords[i].0 == "quotes" ==> b.quotes == keywords[i].1)
      && ((forall i :: 0 <= i < |keywords| ==> keywords[i].0 != "quotes") ==> b.quotes == PyNone)
      && (forall i :: 0 <= i < |keywords| && keywords[i].0 == "escape_with" ==> b.escapeWith == keywords[i].1)
      && ((forall i :: 0 <= i < |keywords| ==> keywords[i].0 != "escape_with") ==> b.escapeWith == PyString("\\"))
  {
    var positional := Positional(generator, None, Args([], keywords));
    assert positional == [PyString(generator)];
    assert Bindable(positional, keywords);
    forall i | 0 <= i < |keywords| && keywords[i].0 == "name" {
      ArgumentByKeyword(positional, keywords, "name", 1, i);
    }
    if forall i :: 0 <= i < |keywords| ==> keywords[i].0 != "name" {
      ArgumentAbsent(positional, keywords, "name", 1);
    }
    forall i | 0 <= i < |keywords| && keywords[i].0 == "quotes" {
      ArgumentByKeyword(positional, keywords, "quotes", 2, i);
    }
    forall i | 0 <= i < |keywords| && keywords[i].0 == "escape_with" {
      ArgumentByKeyword(positional, keywords, "escape_with", 3, i);
    }
    if forall i :: 0 <= i < |keywords| ==> keywords[i].0 != "quotes" {
      ArgumentAbsent(positional, keywords, "quotes", 2);
    }
    if forall i :: 0 <= i < |keywords| ==> keywords[i].0 != "escape_with" {
      ArgumentAbsent(positional, keywords, "escape_with", 3);
    }
  }

  /** One piece of rendered output: literal text, or the result of a call. */
  datatype Piece = Text(text: string) | Value(resolved: Resolved)

  function PieceText(p: Piece): string {
    match p
    case Text(t) => t
    case Value(r) => r.text
  }

  /** The rendered text. */
  function Flatten(pieces: seq<Piece>): string {
    if pieces == [] then "" else Flatten(pieces[..|pieces| - 1]) + PieceText(pieces[|pieces| - 1])
  }

  /** Evaluating one deferred expression: the argument text is interpreted,
      the call is bound, then `dotenver` runs. Only `dotenver` itself touches
      the cache and the fake-data state. */
  function Evaluate(st: GlobalState, caps: Capabilities, generator: string, name: Option<string>, arguments: Option<string>)
    : (out: (Result<Resolved, Error>, GlobalState))
    ensures arguments.None? ==> out == Call(st, caps.fake, generator, if name.Some? then PyString(name.value) else PyNone, PyNone, PyString("\\"), [])
    ensures arguments.Some? && caps.interpret(arguments.value).None? ==> out == (Failure(ArgumentsError(arguments.value)), st)
    ensures arguments.Some? && caps.interpret(arguments.value).Some? ==>
      match Bind(generator, name, caps.interpret(arguments.value).value)
      case Failure(e) => out == (Failure(e), st)
      case Success(b) => out == Call(st, caps.fake, generator, b.name, b.quotes, b.escapeWith, b.kwargs)
    ensures out.0.Success? && name.Some? ==> out.0.value.key == Some(generator + "+" + name.value)
    ensures out.0.Success? ==> out.1.draws == st.draws + 1
    ensures out.0.Failure? ==> out.1 == st
    ensures forall k :: k in st.variables ==> k in out.1.variables && out.1.variables[k] == st.variables[k]
  {
    var parsed := if arguments.Some? then caps.interpret(arguments.value) else Some(Args([], []));
    if parsed.None? then (Failure(ArgumentsError(arguments.value)), st)
    else
      BindWithoutArguments(generator, name);
      match Bind(generator, name, parsed.value)
      case Failure(e) => (Failure(e), st)
      case Success(b) => Call(st, caps.fake, generator, b.name, b.quotes, b.escapeWith, b.kwargs)
  }

  /** The number of `dotenver` calls in a template. */
  function CallCount(segments: seq<Segment>): nat {
    if segments == [] then 0
    else CallCount(segments[..|segments| - 1]) + if segments[|segments| - 1].Deferred? then 1 else 0
  }

  /** `template.render()`: the pieces in template order, and the state after
      the last call made; the first failing call ends the render. */
  function RenderSpec(st: GlobalState, caps: Capabilities, segments: seq<Segment>): (out: (Result<seq<Piece>, Error>, GlobalState))
    ensures out.0.Success? ==> |out.0.value| == |segments|
    ensures out.0.Success? ==> forall i :: 0 <= i < |segments| ==>
      match segments[i]
      case Literal(t) => out.0.value[i] == Text(t)
      case Deferred(g, n, _) => out.0.value[i].Value? && (n.Some? ==> out.0.value[i].resolved.key == Some(g + "+" + n.value))
    ensures out.0.Success? ==> out.1.draws == st.draws + CallCount(segments)
  {
    if segments == [] then (Success([]), st)
    else
      var before := RenderSpec(st, caps, segments[..|segments| - 1]);
      if before.0.Failure? then before
      else
        match segments[|segments| - 1]
        case Literal(t) => (Success(before.0.value + [Text(t)]), before.1)
        case Deferred(g, n, a) =>
          var v := Evaluate(before.1, caps, g, n, a);
          if v.0.Failure? then (Failure(v.0.error), v.1)
          else (Success(before.0.value + [Value(v.0.value)]), v.1)
  }

  /** Rendering never overwrites a cached value. */
  lemma {:induction false} RenderExtends(st: GlobalState, caps: Capabilities, segments: seq<Segment>)
    ensures var final := RenderSpec(st, caps, segments).1;
      forall k :: k in st.variables ==> k in final.variables && final.variables[k] == st.variables[k]
  {
    if segments != [] {
      RenderExtends(st, caps, segments[..|segments| - 1]);
    }
  }

  /** Every named value in a rendered template is the value the cache holds
      for its key at the end, so all uses of one `gen:name` pair agree, and a
      value cached before the render (captured from an existing `.env`)
      wins over any fresh draw. */
  lemma {:induction false} RenderNamedConsistency(st: GlobalState, caps: Capabilities, segments: seq<Segment>)
    requires RenderSpec(st, caps, segments).0.Success?
    ensures var (r, final) := RenderSpec(st, caps, segments);
      forall i :: 0 <= i < |r.value| && r.value[i].Value? && r.value[i].resolved.key.Some? ==>
        var k := r.value[i].resolved.key.value;
        && k in final.variables && r.value[i].resolved.raw == OptionStr(final.variables[k])
        && (k in st.variables ==> r.value[i].resolved.raw == OptionStr(st.variables[k]))
  {
    RenderExtends(st, caps, segments);
    if segments != [] {
      var init := segments[..|segments| - 1];
      RenderNamedConsistency(st, caps, init);
      var before := RenderSpec(st, caps, init);
      match segments[|segments| - 1]
      case Literal(_) =>
      case Deferred(g, n, a) =>
        var v := Evaluate(before.1, caps, g, n, a);
        RenderExtends(st, caps, init);
        EvaluateNamed(before.1, caps, g, n, a);
    }
  }

  lemma EvaluateNamed(st: GlobalState, caps: Capabilities, generator: string, name: Option<string>, arguments: Option<string>)
    ensures var (v, after) := Evaluate(st, caps, generator, name, arguments);
      v.Success? && v.value.key.Some? ==> v.value.key.value in after.variables && v.value.raw == OptionStr(after.variables[v.value.key.value])
  {
  }

  /** Calls without argument text: a template whose directives carry no
      arguments renders whenever the fake-data library answers every call. */
  predicate PlainCalls(segments: seq<Segment>) {
    forall i :: 0 <= i < |segments| && segments[i].Deferred? ==> segments[i].arguments.None?
  }

  lemma {:induction false} RenderSucceeds(st: GlobalState, caps: Capabilities, segments: seq<Segment>)
    requires forall g, k, n :: caps.fake(g, k, n).Some?
    requires PlainCalls(segments)
    ensures RenderSpec(st, caps, segments).0.Success?
  {
    if segments != [] {
      var init := segments[..|segments| - 1];
      assert PlainCalls(init) by {
        forall i | 0 <= i < |init| && init[i].Deferred? ensures init[i].arguments.None? {
          assert init[i] == segments[i];
        }
      }
      RenderSucceeds(st, caps, init);
    }
  }

  /** Once a prefix of the template fails, the whole render fails the same
      way: nothing after the failing call is evaluated. */
  lemma {:induction false} RenderFailurePersists(st: GlobalState, caps: Capabilities, segments: seq<Segment>, n: nat)
    requires n <= |segments| && RenderSpec(st, caps, segments[..n]).0.Failure?
    ensures RenderSpec(st, caps, segments) == RenderSpec(st, caps, segments[..n])
    decreases |segments|
  {
    if n < |segments| {
      var init := segments[..|segments| - 1];
      assert init[..n] == segments[..n];
      RenderFailurePersists(st, caps, init, n);
    } else {
      assert segments[..n] == segments;
    }
  }

  /** One deferred expression, evaluated against the module-level state. */
  method EvaluateCall(globals: Globals, caps: Capabilities, generator: string, name: Option<string>, arguments: Option<string>)
    returns (v: Result<Resolved, Error>)
    modifies globals
    ensures (v, globals.State()) == Evaluate(old(globals.State()), caps, generator, name, arguments)
  {
    var parsed := if arguments.Some? then caps.interpret(arguments.value) else Some(Args([], []));
    if parsed.None? {
      return Failure(ArgumentsError(arguments.value));
    }
    var binding := Bind(generator, name, parsed.value);
    if binding.Failure? {
      return Failure(binding.error);
    }
    var b := binding.value;
    v := globals.Dotenver(caps.fake, generator, b.name, b.quotes, b.escapeWith, b.kwargs);
  }

  /** `jinja2_template.render()` */
  method RenderTemplate(globals: Globals, caps: Capabilities, segments: seq<Segment>) returns (r: Result<string, Error>)
    modifies globals
    ensures globals.State() == RenderSpec(old(globals.State()), caps, segments).1
    ensures var out := RenderSpec(old(globals.State()), caps, segments).0;
      && (r.Success? <==> out.Success?)
      && (r.Success? ==> r.value == Flatten(out.value))
      && (r.Failure? ==> r.error == out.error)
  {
    ghost var start := globals.State();
    ghost var pieces: seq<Piece> := [];
    var text := "";
    for i := 0 to |segments|
      invariant RenderSpec(start, caps, segments[..i]) == (Success(pieces), globals.State())
      invariant text == Flatten(pieces)
    {
      assert segments[..i + 1][..i] == segments[..i];
      match segments[i]
      case Literal(t) =>
        assert (pieces + [Text(t)])[..|pieces|] == pieces;
        pieces := pieces + [Text(t)];
        text := text + t;
      case Deferred(g, n, a) =>
        var v := EvaluateCall(globals, caps, g, n, a);
        if v.Failure? {
          RenderFailurePersists(start, caps, segments, i + 1);
          return Failure(v.error);
        }
        assert (pieces + [Value(v.value)])[..|pieces|] == pieces;
        pieces := pieces + [Value(v.value)];
        text := text + v.value.text;
    }
    assert segments[..|segments|] == segments;
    r := Success(text);
  }
}
