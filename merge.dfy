/** The merge step, `parse_stream`: every template line is reconciled against
    the snapshot of the existing file, named existing values are captured into
    the cache, and the text to render is built, followed by the variables the
    template never declares. */
module Merge {
  import opened Wrappers
  import opened Text
  import opened Declarations
  import opened Dicts
  import opened Snapshot
  import opened NamedValues

  /** A piece of the intermediate template: text, or a deferred
      `{{ dotenver(...) }}` expression with its generator, its `gen:name`
      name and its argument text. */
  datatype Segment = Literal(text: string) | Deferred(generator: string, name: Option<string>, arguments: Option<string>)

  /** Python truthiness of an optional match group. */
  predicate Truthy(group: Option<string>) {
    group.Some? && group.value != ""
  }

  function KeepTruthy(group: Option<string>): Option<string> {
    if Truthy(group) then group else None
  }

  /** `get_value_key(generator, name)` on the groups of a template match. */
  function DeclKey(d: Declaration): Option<string> {
    ValueKey(OptionStr(d.generator), if d.name.Some? then PyString(d.name.value) else PyNone)
  }

  /** `dotenver_args`, lines 125-129. */
  function CallArguments(generator: string, name: Option<string>, arguments: Option<string>): string {
    var withGenerator := "'" + generator + "'";
    var withName := if name.Some? then withGenerator + ", '" + name.value + "'" else withGenerator;
    if arguments.Some? then withName + ", " + arguments.value else withName
  }

  /** The Jinja expression of a deferred call, line 130. */
  function CallSource(generator: string, name: Option<string>, arguments: Option<string>): string {
    "{{ dotenver(" + CallArguments(generator, name, arguments) + ") }}"
  }

  /** The Jinja source text of one segment. */
  function SegmentSource(s: Segment): string {
    match s
    case Literal(t) => t
    case Deferred(g, n, a) => CallSource(g, n, a)
  }

  /** The Jinja source text of a sequence of segments. */
  function SourceOf(segments: seq<Segment>): string {
    if segments == [] then ""
    else SourceOf(segments[..|segments| - 1]) + SegmentSource(segments[|segments| - 1])
  }

  /** The exact `line` that lines 108-134 build for a matched template line. */
  function SourceLine(d: Declaration, current: Env): string {
    if d.variable in current.items then d.leftSide + "=" + OptionStr(current.items[d.variable].value)
    else if Truthy(d.generator) then d.leftSide + "=" + CallSource(d.generator.value, KeepTruthy(d.name), KeepTruthy(d.arguments))
    else if Truthy(d.value) then d.leftSide + "=" + d.value.value
    else d.leftSide
  }

  /** What one template line writes to the buffer: the stripped line and a
      newline, with a deferred call kept as a segment of its own. */
  function LineOut(l: TemplateLine, current: Env): seq<Segment> {
    match l
    case Raw(t) => [Literal(Strip(t) + "\n")]
    case Decl(d) =>
      if d.variable !in current.items && Truthy(d.generator) then
        [Literal(StripLeading(d.leftSide) + "="), Deferred(d.generator.value, KeepTruthy(d.name), KeepTruthy(d.arguments)), Literal("\n")]
      else
        [Literal(Strip(SourceLine(d, current)) + "\n")]
  }

  /** The buffer after the template lines, one `LineOut` per line. */
  function Body(template: seq<TemplateLine>, current: Env): seq<Segment> {
    if template == [] then []
    else Body(template[..|template| - 1], current) + LineOut(template[|template| - 1], current)
  }

  /** `extra_variables` after the template lines: every snapshot variable a
      line declares is deleted. */
  function Remaining(current: Env, template: seq<TemplateLine>): (extra: Env)
    requires current.Valid()
    ensures extra.Valid()
  {
    if template == [] then current
    else
      var extra := Remaining(current, template[..|template| - 1]);
      match template[|template| - 1]
      case Decl(d) => if d.variable in current.items then extra.Remove(d.variable) else extra
      case Raw(_) => extra
  }

  /** The separator written before the leftover variables, lines 140-145. */
  const Header: string := "\n######################################\n# Variables not in Dotenver template #\n######################################\n\n"

  /** One leftover line per entry, `left_side=value`, not stripped. */
  function LeftoverLines(entries: seq<Entry>): seq<Segment> {
    if entries == [] then []
    else
      var e := entries[|entries| - 1];
      LeftoverLines(entries[..|entries| - 1]) + [Literal(e.leftSide + "=" + OptionStr(e.value) + "\n")]
  }

  /** Lines 138-148: nothing when no variable is left over. */
  function LeftoverBlock(extra: Env): seq<Segment>
    requires extra.Valid()
  {
    if extra.keys == [] then [] else [Literal(Header)] + LeftoverLines(extra.Values())
  }

  /** The whole intermediate template. */
  function Merged(template: seq<TemplateLine>, current: Env): seq<Segment>
    requires current.Valid()
  {
    Body(template, current) + LeftoverBlock(Remaining(current, template))
  }

  /** The cache after the capture step of line `l`. */
  function CaptureLine(variables: map<string, Option<string>>, l: TemplateLine, current: Env): map<string, Option<string>> {
    match l
    case Decl(d) => if d.variable in current.items then CaptureInto(variables, DeclKey(d), current.items[d.variable].value) else variables
    case Raw(_) => variables
  }

  /** The cache after the capture steps of every template line. */
  function Captures(variables: map<string, Option<string>>, template: seq<TemplateLine>, current: Env): map<string, Option<string>> {
    if template == [] then variables
    else CaptureLine(Captures(variables, template[..|template| - 1], current), template[|template| - 1], current)
  }

  /** The body of the loop of `parse_stream` for one template line: what it
      writes, and what it deletes from `extra_variables`. */
  method MergeLine(globals: Globals, l: TemplateLine, current: Env, extra: Env) returns (written: seq<Segment>, extra': Env)
    requires extra.Valid()
    modifies globals
    ensures written == LineOut(l, current)
    ensures extra' == if l.Decl? && l.decl.variable in current.items then extra.Remove(l.decl.variable) else extra
    ensures globals.variables == CaptureLine(old(globals.variables), l, current)
    ensures globals.draws == old(globals.draws)
  {
    extra' := extra;
    match l
    case Raw(text) =>
      written := [Literal(Strip(text) + "\n")];
    case Decl(d) =>
      if d.variable in current.items {
        var currentValue := current.items[d.variable].value;
        extra' := extra.Remove(d.variable);
        globals.Capture(DeclKey(d), currentValue);
        var line := d.leftSide + "=" + OptionStr(currentValue);
        written := [Literal(Strip(line) + "\n")];
      } else if Truthy(d.generator) {
        written := [Literal(StripLeading(d.leftSide) + "="),
                    Deferred(d.generator.value, KeepTruthy(d.name), KeepTruthy(d.arguments)),
                    Literal("\n")];
      } else if Truthy(d.value) {
        var line := d.leftSide + "=" + d.value.value;
        written := [Literal(Strip(line) + "\n")];
      } else {
        written := [Literal(Strip(d.leftSide) + "\n")];
      }
  }

  /** `parse_stream(template_stream, current_dotenv)`, without the final
      Jinja compilation: the buffer it fills, and the captures it makes. */
  method ParseStream(globals: Globals, template: seq<TemplateLine>, current: Env) returns (buffer: seq<Segment>)
    requires current.Valid()
    modifies globals
    ensures buffer == Merged(template, current)
    ensures globals.variables == Captures(old(globals.variables), template, current)
    ensures globals.draws == old(globals.draws)
  {
    buffer := [];
    var extra := current;
    for i := 0 to |template|
      invariant buffer == Body(template[..i], current)
      invariant extra == Remaining(current, template[..i])
      invariant globals.variables == Captures(old(globals.variables), template[..i], current)
      invariant globals.draws == old(globals.draws)
    {
      assert template[..i + 1][..i] == template[..i];
      var prefix := template[..i + 1];
      assert prefix[..|prefix| - 1] == template[..i] && prefix[|prefix| - 1] == template[i];
      var written;
      written, extra := MergeLine(globals, template[i], current, extra);
      buffer := buffer + written;
      assert buffer == Body(prefix, current);
      assert extra == Remaining(current, prefix);
    }
    assert template[..|template|] == template;
    buffer := WriteLeftovers(buffer, extra);
  }

  /** Lines 138-148: the separator and the leftover variables, appended to the
      buffer when any are left. */
  method WriteLeftovers(buffer: seq<Segment>, extra: Env) returns (buffer': seq<Segment>)
    requires extra.Valid()
    ensures buffer' == buffer + LeftoverBlock(extra)
  {
    buffer' := buffer;
    if extra.keys != [] {
      buffer' := buffer' + [Literal(Header)];
      var entries := extra.Values();
      for j := 0 to |entries|
        invariant buffer' == buffer + [Literal(Header)] + LeftoverLines(entries[..j])
      {
        assert entries[..j + 1][..j] == entries[..j];
        var e := entries[j];
        buffer' := buffer' + [Literal(e.leftSide + "=" + OptionStr(e.value) + "\n")];
      }
      assert entries[..|entries|] == entries;
    }
  }
}
