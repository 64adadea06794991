/** What the line patterns of the merge engine extract from a line. The
    regular expressions themselves are not modelled: a parsed line is an input,
    and the predicates below state the character classes and shapes that a
    match always has. */
module Declarations {
  import opened Wrappers
  import opened Text

  /** A template line matched by the template pattern: the verbatim left side
      (with any `export` prefix), the variable name, the literal value (absent
      when there is no `=`), and the parts of a `## dotenver:` comment. */
  datatype Declaration = Declaration(
    leftSide: string,
    variable: string,
    value: Option<string>,
    generator: Option<string>,
    name: Option<string>,
    arguments: Option<string>)

  /** A template line: a declaration, or a line the pattern does not match
      (a comment, a blank line), kept as read. */
  datatype TemplateLine = Decl(decl: Declaration) | Raw(text: string)

  /** A line of an existing environment file, as the plain pattern sees it. */
  datatype EnvLine = Assignment(leftSide: string, variable: string, value: Option<string>) | Other(text: string)

  /** `[^\s=#]` */
  predicate VariableChar(c: char) {
    !IsSpace(c) && c != '=' && c != '#'
  }

  /** `[^\(\s#:]` */
  predicate GeneratorChar(c: char) {
    !IsSpace(c) && c != '(' && c != '#' && c != ':'
  }

  /** `[^\(\s#]` */
  predicate NameChar(c: char) {
    !IsSpace(c) && c != '(' && c != '#'
  }

  predicate IsVariable(s: string) {
    s != [] && forall i :: 0 <= i < |s| ==> VariableChar(s[i])
  }

  predicate IsGenerator(s: string) {
    s != [] && forall i :: 0 <= i < |s| ==> GeneratorChar(s[i])
  }

  predicate IsName(s: string) {
    s != [] && forall i :: 0 <= i < |s| ==> NameChar(s[i])
  }

  /** `(?:export\s)?\s*` followed by the variable: leading whitespace of the
      line is outside the group, so the left side is the variable itself or
      `export`, at least one space, and the variable. */
  predicate IsLeftSide(leftSide: string, variable: string) {
    IsVariable(variable)
    && (leftSide == variable
        || (|leftSide| >= |variable| + 7
            && leftSide[..6] == "export"
            && leftSide[|leftSide| - |variable|..] == variable
            && forall i :: 6 <= i < |leftSide| - |variable| ==> IsSpace(leftSide[i]) && leftSide[i] != '\n'))
  }

  /** The shape of every template match. A directive needs the `=`, a name or
      an argument list needs a generator, no group spans a newline, and a
      value that is not followed by a directive has no trailing whitespace
      (the lazy value leaves it to the final `\s*`). */
  predicate WellFormed(d: Declaration) {
    && IsLeftSide(d.leftSide, d.variable)
    && (d.value.Some? ==> NoNewline(d.value.value))
    && (d.generator.Some? ==> d.value.Some? && IsGenerator(d.generator.value))
    && (d.name.Some? ==> d.generator.Some? && IsName(d.name.value))
    && (d.arguments.Some? ==> d.generator.Some? && NoNewline(d.arguments.value))
    && (d.generator.None? && d.value.Some? ==> NoTrailingSpace(d.value.value))
  }

  /** A line read from a file: a newline can only be its last character. */
  predicate IsFileLine(s: string) {
    forall i :: 0 <= i < |s| - 1 ==> s[i] != '\n'
  }

  predicate TemplateLineOk(l: TemplateLine) {
    match l
    case Decl(d) => WellFormed(d)
    case Raw(t) => IsFileLine(t)
  }

  /** The left side and value of an environment assignment, under the same
      rules as a template declaration without a directive. */
  predicate AssignmentOk(leftSide: string, variable: string, value: Option<string>) {
    IsLeftSide(leftSide, variable)
    && (value.Some? ==> NoNewline(value.value) && NoTrailingSpace(value.value))
  }

  lemma AssignmentValue(leftSide: string, variable: string, value: Option<string>)
    requires AssignmentOk(leftSide, variable, value)
    ensures value.Some? ==> NoNewline(value.value) && NoTrailingSpace(value.value)
  {
  }

  predicate EnvLineOk(l: EnvLine) {
    match l
    case Assignment(s, v, x) => AssignmentOk(s, v, x)
    case Other(_) => true
  }

  /** Both patterns share the left side, so it starts and ends with a
      character that `str.strip()` keeps. */
  lemma LeftSideEdges(leftSide: string, variable: string)
    requires IsLeftSide(leftSide, variable)
    ensures leftSide != [] && !IsSpace(leftSide[0]) && !IsSpace(leftSide[|leftSide| - 1])
    ensures NoNewline(leftSide)
  {
    if leftSide != variable {
      assert leftSide[0] == 'e' by { assert leftSide[..6][0] == leftSide[0]; }
      assert leftSide[|leftSide| - 1] == variable[|variable| - 1];
      forall i | 0 <= i < |leftSide| ensures leftSide[i] != '\n' {
        if i < 6 {
          assert leftSide[i] == "export"[i];
        } else if i >= |leftSide| - |variable| {
          assert leftSide[i] == variable[i - (|leftSide| - |variable|)];
        }
      }
    } else {
      assert VariableChar(variable[0]) && VariableChar(variable[|variable| - 1]);
      forall i | 0 <= i < |leftSide| ensures leftSide[i] != '\n' {
        assert VariableChar(leftSide[i]);
      }
    }
  }
}
