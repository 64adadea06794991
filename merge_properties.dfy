/** What the merge step promises: the line it writes for each template line,
    the precedence between an existing value, a directive, a literal and a bare
    name, the leftover block, and the captures it makes. */
module MergeProperties {
  import opened Wrappers
  import opened Text
  import opened Declarations
  import opened Dicts
  import opened Snapshot
  import opened NamedValues
  import opened Merge

  lemma {:induction false} SourceOfAppend(a: seq<Segment>, b: seq<Segment>)
    ensures SourceOf(a + b) == SourceOf(a) + SourceOf(b)
    decreases |b|
  {
    if b == [] {
      assert a + b == a;
      assert SourceOf(a) + [] == SourceOf(a);
    } else {
      var init, x := b[..|b| - 1], b[|b| - 1];
      assert a + b == (a + init) + [x];
      assert ((a + init) + [x])[..|a + init|] == a + init;
      SourceOfAppend(a, init);
      AppendAssoc(SourceOf(a), SourceOf(init), SegmentSource(x));
    }
  }

  lemma SourceOfOne(x: Segment)
    ensures SourceOf([x]) == SegmentSource(x)
  {
    assert [x][..0] == [];
  }

  lemma SourceOfThree(x: Segment, y: Segment, z: Segment)
    ensures SourceOf([x, y, z]) == SegmentSource(x) + SegmentSource(y) + SegmentSource(z)
  {
    assert [x, y, z][..2] == [x, y];
    assert [x, y][..1] == [x];
    SourceOfOne(x);
  }

  /** A Jinja expression starts with `{` and ends with `}`. */
  lemma CallSourceEdges(generator: string, name: Option<string>, arguments: Option<string>)
    ensures var s := CallSource(generator, name, arguments);
      |s| >= 2 && s[0] == '{' && s[|s| - 1] == '}'
  {
  }

  /** The segments of a line spell out the stripped Python `line` and a
      newline; a deferred call is the Jinja expression line 130 writes. */
  lemma LineOutIsStrippedLine(l: TemplateLine, current: Env)
    ensures SourceOf(LineOut(l, current)) == match l
      case Raw(t) => Strip(t) + "\n"
      case Decl(d) => Strip(SourceLine(d, current)) + "\n"
  {
    match l
    case Raw(t) =>
      SourceOfOne(Literal(Strip(t) + "\n"));
    case Decl(d) =>
      if d.variable !in current.items && Truthy(d.generator) {
        var g, n, a := d.generator.value, KeepTruthy(d.name), KeepTruthy(d.arguments);
        var call := CallSource(g, n, a);
        SourceOfThree(Literal(StripLeading(d.leftSide) + "="), Deferred(g, n, a), Literal("\n"));
        CallSourceEdges(g, n, a);
        StripKeepsTail(d.leftSide, '=', call);
      } else {
        SourceOfOne(Literal(Strip(SourceLine(d, current)) + "\n"));
      }
  }

  /** The line of lines 108-134 for a well-formed declaration is left alone
      by `strip`. */
  lemma SourceLineStripped(d: Declaration, current: Env)
    requires WellFormed(d) && EnvOk(current)
    ensures Strip(SourceLine(d, current)) == SourceLine(d, current)
  {
    LeftSideEdges(d.leftSide, d.variable);
    if d.variable in current.items {
      ExistingValueEdges(current, d.variable);
      StripAssignment(d.leftSide, OptionStr(current.items[d.variable].value));
    } else if Truthy(d.generator) {
      CallSourceEdges(d.generator.value, KeepTruthy(d.name), KeepTruthy(d.arguments));
      StripAssignment(d.leftSide, CallSource(d.generator.value, KeepTruthy(d.name), KeepTruthy(d.arguments)));
    } else if Truthy(d.value) {
      StripAssignment(d.leftSide, d.value.value);
    } else {
      StripUnchanged(d.leftSide);
    }
  }

  lemma ExistingValueEdges(current: Env, variable: string)
    requires EnvOk(current) && variable in current.items
    ensures NoTrailingSpace(OptionStr(current.items[variable].value))
    ensures NoNewline(OptionStr(current.items[variable].value))
  {
    var e := current.items[variable];
    AssignmentValue(e.leftSide, variable, e.value);
    OptionStrNoTrailingSpace(e.value);
    OptionStrNoNewline(e.value);
  }

  /** The precedence of lines 108-134 for a well-formed declaration: an
      existing snapshot value wins, whatever the template says; then a
      directive, kept as a deferred call; then a non-empty literal; else the
      bare left side. In the first case no generator call is left to make. */
  lemma Precedence(d: Declaration, current: Env)
    requires WellFormed(d) && EnvOk(current)
    ensures SourceOf(LineOut(Decl(d), current)) ==
      (if d.variable in current.items then d.leftSide + "=" + OptionStr(current.items[d.variable].value)
       else if Truthy(d.generator) then d.leftSide + "=" + CallSource(d.generator.value, KeepTruthy(d.name), KeepTruthy(d.arguments))
       else if Truthy(d.value) then d.leftSide + "=" + d.value.value
       else d.leftSide) + "\n"
    ensures d.variable in current.items ==> forall s :: s in LineOut(Decl(d), current) ==> s.Literal?
  {
    LineOutIsStrippedLine(Decl(d), current);
    SourceLineStripped(d, current);
  }

  /** A variable declared twice in one template resolves, both times, to the
      same existing value; the lines are not merged into one. */
  lemma DuplicateDeclarations(template: seq<TemplateLine>, current: Env, i: nat, j: nat)
    requires i < j < |template| && template[i].Decl? && template[j].Decl?
    requires WellFormed(template[i].decl) && WellFormed(template[j].decl) && EnvOk(current)
    requires template[i].decl.variable == template[j].decl.variable && template[i].decl.variable in current.items
    ensures SourceOf(LineOut(template[i], current)) ==
      template[i].decl.leftSide + "=" + OptionStr(current.items[template[i].decl.variable].value) + "\n"
    ensures SourceOf(LineOut(template[j], current)) ==
      template[j].decl.leftSide + "=" + OptionStr(current.items[template[i].decl.variable].value) + "\n"
  {
    Precedence(template[i].decl, current);
    Precedence(template[j].decl, current);
  }

  lemma CallSourceNoNewline(d: Declaration)
    requires WellFormed(d) && d.generator.Some?
    ensures NoNewline(CallSource(d.generator.value, KeepTruthy(d.name), KeepTruthy(d.arguments)))
  {
    var g := d.generator.value;
    assert NoNewline(g) by {
      forall i | 0 <= i < |g| ensures g[i] != '\n' { assert GeneratorChar(g[i]); }
    }
    var withName := "'" + g + "'";
    NoNewlineAppend("'", g);
    NoNewlineAppend("'" + g, "'");
    if KeepTruthy(d.name).Some? {
      var n := d.name.value;
      assert NoNewline(n) by {
        forall i | 0 <= i < |n| ensures n[i] != '\n' { assert NameChar(n[i]); }
      }
      NoNewlineAppend(withName, ", '");
      NoNewlineAppend(withName + ", '", n);
      NoNewlineAppend(withName + ", '" + n, "'");
      withName := withName + ", '" + n + "'";
    }
    var all := withName;
    if KeepTruthy(d.arguments).Some? {
      NoNewlineAppend(withName, ", ");
      NoNewlineAppend(withName + ", ", d.arguments.value);
      all := withName + ", " + d.arguments.value;
    }
    assert all == CallArguments(g, KeepTruthy(d.name), KeepTruthy(d.arguments));
    NoNewlineAppend("{{ dotenver(", all);
    NoNewlineAppend("{{ dotenver(" + all, ") }}");
  }

  /** Every line a well-formed template line produces holds exactly one
      newline, its last character. */
  lemma OneNewlinePerLine(l: TemplateLine, current: Env)
    requires TemplateLineOk(l) && EnvOk(current)
    ensures var s := SourceOf(LineOut(l, current));
      s != [] && s[|s| - 1] == '\n' && NoNewline(s[..|s| - 1])
  {
    match l
    case Raw(t) =>
      LineOutIsStrippedLine(l, current);
      StripRemovesNewline(t);
      NewlineTerminated(Strip(t));
    case Decl(d) =>
      Precedence(d, current);
      LeftSideEdges(d.leftSide, d.variable);
      if d.variable in current.items {
        var e := current.items[d.variable];
        ExistingValueEdges(current, d.variable);
        NoNewlineAssignment(d.leftSide, OptionStr(e.value));
        NewlineTerminated(d.leftSide + "=" + OptionStr(e.value));
      } else if Truthy(d.generator) {
        var call := CallSource(d.generator.value, KeepTruthy(d.name), KeepTruthy(d.arguments));
        CallSourceNoNewline(d);
        NoNewlineAssignment(d.leftSide, call);
        NewlineTerminated(d.leftSide + "=" + call);
      } else if Truthy(d.value) {
        NoNewlineAssignment(d.leftSide, d.value.value);
        NewlineTerminated(d.leftSide + "=" + d.value.value);
      } else {
        NewlineTerminated(d.leftSide);
      }
  }

  /** `''.join(strings)` */
  function Concat(strings: seq<string>): string {
    if strings == [] then "" else Concat(strings[..|strings| - 1]) + strings[|strings| - 1]
  }

  /** The text of each template line's output, in template order. */
  function LineTexts(template: seq<TemplateLine>, current: Env): (texts: seq<string>)
    ensures |texts| == |template|
  {
    seq(|template|, i requires 0 <= i < |template| => SourceOf(LineOut(template[i], current)))
  }

  /** The body is one output line per template line, in template order. */
  lemma {:induction false} BodyIsLines(template: seq<TemplateLine>, current: Env)
    ensures SourceOf(Body(template, current)) == Concat(LineTexts(template, current))
  {
    if template != [] {
      var init := template[..|template| - 1];
      BodyIsLines(init, current);
      SourceOfAppend(Body(init, current), LineOut(template[|template| - 1], current));
      assert LineTexts(template, current)[..|template| - 1] == LineTexts(init, current);
    }
  }

  /** The variables some line of the template declares. */
  function Declared(template: seq<TemplateLine>): set<string> {
    if template == [] then {}
    else
      var last := template[|template| - 1];
      Declared(template[..|template| - 1]) + if last.Decl? then {last.decl.variable} else {}
  }

  lemma {:induction false} DeclaredMembers(template: seq<TemplateLine>, x: string)
    ensures x in Declared(template) <==>
      exists i :: 0 <= i < |template| && template[i].Decl? && template[i].decl.variable == x
  {
    if template != [] {
      var init := template[..|template| - 1];
      DeclaredMembers(init, x);
      if x in Declared(init) {
        var i :| 0 <= i < |init| && init[i].Decl? && init[i].decl.variable == x;
        assert template[i] == init[i];
      }
      if exists i :: 0 <= i < |template| && template[i].Decl? && template[i].decl.variable == x {
        var i :| 0 <= i < |template| && template[i].Decl? && template[i].decl.variable == x;
        if i < |init| {
          assert init[i] == template[i];
        }
      }
    }
  }

  lemma {:induction false} WithoutIrrelevant(s: seq<string>, drop: set<string>, extra: set<string>)
    requires forall x :: x in extra ==> x !in s
    ensures Without(s, drop + extra) == Without(s, drop)
  {
    if s != [] {
      WithoutIrrelevant(s[1..], drop, extra);
    }
  }

  /** The leftover candidates are the snapshot minus every declared variable,
      in snapshot order. */
  lemma {:induction false} RemainingIsUndeclared(current: Env, template: seq<TemplateLine>)
    requires current.Valid()
    ensures Remaining(current, template).keys == Without(current.keys, Declared(template))
    ensures Remaining(current, template).items == current.items - Declared(template)
  {
    if template == [] {
      WithoutNothing(current.keys);
      assert current.items - {} == current.items;
    } else {
      var init := template[..|template| - 1];
      RemainingIsUndeclared(current, init);
      RemainingStep(current, init, template[|template| - 1]);
      assert init + [template[|template| - 1]] == template;
    }
  }

  lemma RemainingStep(current: Env, init: seq<TemplateLine>, last: TemplateLine)
    requires current.Valid()
    requires Remaining(current, init).keys == Without(current.keys, Declared(init))
    requires Remaining(current, init).items == current.items - Declared(init)
    ensures Remaining(current, init + [last]).keys == Without(current.keys, Declared(init + [last]))
    ensures Remaining(current, init + [last]).items == current.items - Declared(init + [last])
  {
    var template := init + [last];
    assert template[..|template| - 1] == init;
    if last.Decl? {
      var v := last.decl.variable;
      assert Declared(template) == Declared(init) + {v};
      if v in current.items {
        WithoutWithout(current.keys, Declared(init), {v});
        MapSubtractTwice(current.items, Declared(init), {v});
      } else {
        WithoutIrrelevant(current.keys, Declared(init), {v});
        MapSubtractAbsent(current.items, Declared(init), {v});
      }
    } else {
      assert Declared(template) == Declared(init) + {};
      assert Declared(init) + {} == Declared(init);
    }
  }

  /** A snapshot entry as written after the separator, not stripped. */
  function EntryLine(e: Entry): string {
    e.leftSide + "=" + OptionStr(e.value) + "\n"
  }

  /** The entry lines one after the other. */
  function EntryLines(entries: seq<Entry>): string {
    if entries == [] then "" else EntryLines(entries[..|entries| - 1]) + EntryLine(entries[|entries| - 1])
  }

  lemma {:induction false} LeftoverLinesText(entries: seq<Entry>)
    ensures SourceOf(LeftoverLines(entries)) == EntryLines(entries)
  {
    if entries != [] {
      var init := entries[..|entries| - 1];
      var e := entries[|entries| - 1];
      LeftoverLinesText(init);
      SourceOfAppend(LeftoverLines(init), [Literal(EntryLine(e))]);
      SourceOfOne(Literal(EntryLine(e)));
    }
  }

  /** After the template lines come, only when some snapshot variable is never
      declared, the separator and the entry of every undeclared variable, in
      snapshot order, with the snapshot's own left side. */
  lemma Leftovers(template: seq<TemplateLine>, current: Env)
    requires current.Valid()
    ensures var block := LeftoverBlock(Remaining(current, template));
      var undeclared := Without(current.keys, Declared(template));
      && SourceOf(Merged(template, current)) == SourceOf(Body(template, current)) + SourceOf(block)
      && (block == [] <==> forall k :: k in current.keys ==> k in Declared(template))
      && (block != [] ==> SourceOf(block) == Header + EntryLines(seq(|undeclared|, i requires 0 <= i < |undeclared| => current.items[undeclared[i]])))
  {
    RemainingIsUndeclared(current, template);
    SourceOfAppend(Body(template, current), LeftoverBlock(Remaining(current, template)));
    LeftoverBlockEmpty(current, Declared(template), Remaining(current, template));
    LeftoverBlockText(current, Declared(template), Remaining(current, template));
  }

  lemma LeftoverBlockEmpty(current: Env, declared: set<string>, extra: Env)
    requires current.Valid() && extra.Valid() && extra.keys == Without(current.keys, declared)
    ensures LeftoverBlock(extra) == [] <==> forall k :: k in current.keys ==> k in declared
  {
    if !forall k :: k in current.keys ==> k in declared {
      var k :| k in current.keys && k !in declared;
      assert k in extra.keys;
    }
  }

  lemma LeftoverBlockText(current: Env, declared: set<string>, extra: Env)
    requires current.Valid() && extra.Valid()
    requires extra.keys == Without(current.keys, declared) && extra.items == current.items - declared
    ensures var undeclared := Without(current.keys, declared);
      LeftoverBlock(extra) != [] ==>
        SourceOf(LeftoverBlock(extra)) == Header + EntryLines(seq(|undeclared|, i requires 0 <= i < |undeclared| => current.items[undeclared[i]]))
  {
    if extra.keys != [] {
      HeaderThenEntries(extra.Values());
      UndeclaredValues(current, declared, extra);
    }
  }

  lemma HeaderThenEntries(entries: seq<Entry>)
    ensures SourceOf([Literal(Header)] + LeftoverLines(entries)) == Header + EntryLines(entries)
  {
    LeftoverLinesText(entries);
    SourceOfAppend([Literal(Header)], LeftoverLines(entries));
    SourceOfOne(Literal(Header));
  }

  lemma UndeclaredValues(current: Env, declared: set<string>, extra: Env)
    requires current.Valid() && extra.Valid()
    requires extra.keys == Without(current.keys, declared) && extra.items == current.items - declared
    ensures var undeclared := Without(current.keys, declared);
      extra.Values() == seq(|undeclared|, i requires 0 <= i < |undeclared| => current.items[undeclared[i]])
  {
  }

  /** Line `i` captures an existing value under `key`. */
  predicate CapturesAt(template: seq<TemplateLine>, current: Env, i: nat, key: string)
    requires i < |template|
  {
    template[i].Decl? && template[i].decl.variable in current.items && DeclKey(template[i].decl) == Some(key)
  }

  /** Captures never overwrite: every key already cached keeps its value. */
  lemma {:induction false} CapturesKeepCached(variables: map<string, Option<string>>, template: seq<TemplateLine>, current: Env)
    ensures forall k :: k in variables ==>
      k in Captures(variables, template, current) && Captures(variables, template, current)[k] == variables[k]
  {
    if template != [] {
      CapturesKeepCached(variables, template[..|template| - 1], current);
    }
  }

  /** A key is cached after the merge exactly when it was before or some line
      captures it; a newly cached key holds the existing value of the first
      line that captures it. */
  lemma {:induction false} CapturesFirstWins(variables: map<string, Option<string>>, template: seq<TemplateLine>, current: Env, key: string)
    ensures key in Captures(variables, template, current) <==>
      key in variables || exists i :: 0 <= i < |template| && CapturesAt(template, current, i, key)
    ensures forall i :: 0 <= i < |template| && key !in variables && CapturesAt(template, current, i, key)
                        && (forall j :: 0 <= j < i ==> !CapturesAt(template, current, j, key)) ==>
      Captures(variables, template, current)[key] == current.items[template[i].decl.variable].value
  {
    if template != [] {
      var init := template[..|template| - 1];
      var n := |template| - 1;
      CapturesFirstWins(variables, init, current, key);
      forall i | 0 <= i < n ensures CapturesAt(template, current, i, key) == CapturesAt(init, current, i, key) {
        assert template[i] == init[i];
      }
      if CapturesAt(template, current, n, key) {
        assert key in Captures(variables, template, current);
      }
    }
  }

  /** Without a snapshot nothing is captured. */
  lemma {:induction false} CapturesWithoutSnapshot(variables: map<string, Option<string>>, template: seq<TemplateLine>)
    ensures Captures(variables, template, Empty()) == variables
  {
    if template != [] {
      CapturesWithoutSnapshot(variables, template[..|template| - 1]);
    }
  }

  /** With an empty snapshot (override mode) there is no leftover block and
      every declaration falls to its directive, its literal or its bare name. */
  lemma MergeWithoutSnapshot(template: seq<TemplateLine>)
    ensures Merged(template, Empty()) == Body(template, Empty())
    ensures forall d :: WellFormed(d) ==>
      SourceOf(LineOut(Decl(d), Empty())) ==
      (if Truthy(d.generator) then d.leftSide + "=" + CallSource(d.generator.value, KeepTruthy(d.name), KeepTruthy(d.arguments))
       else if Truthy(d.value) then d.leftSide + "=" + d.value.value
       else d.leftSide) + "\n"
  {
    var empty: Env := Empty();
    RemainingIsUndeclared(empty, template);
    WithoutNothing(empty.keys);
    assert Remaining(empty, template).keys == [];
    assert Body(template, empty) + [] == Body(template, empty);
    forall d | WellFormed(d) ensures SourceOf(LineOut(Decl(d), empty)) ==
      (if Truthy(d.generator) then d.leftSide + "=" + CallSource(d.generator.value, KeepTruthy(d.name), KeepTruthy(d.arguments))
       else if Truthy(d.value) then d.leftSide + "=" + d.value.value
       else d.leftSide) + "\n"
    {
      Precedence(d, empty);
    }
  }
}
