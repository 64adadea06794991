# dotenver, modelled in Dafny

dotenver generates `.env` files from `.env.example` templates. A template line
declares a variable. It can carry a literal value, or a `## dotenver:gen[:name](args)`
comment that asks the fake-data library for a value. When a `.env` already
exists beside the template, its values win, and variables it holds that the
template never declares are kept at the end under a fixed header. Values
drawn with a `gen:name` pair are cached in the module-level `VARIABLES` dict.
Every rendered call of a pair, in any template of one run, gets the value the
cache holds after the first pass: the first capture in path order
(`FirstPassFirstCaptureWins`), or else the first draw. A declaration whose
variable its own `.env` already holds keeps that file's value.

The model covers the template-merge engine of `dotenver/dotenver.py`:

- `text.dfy` (`Text`): Python's `str.isspace`, `str.strip`, the quote
  escaping of `str.replace` with its inverse, and the f-string of `None`.
- `dicts.dfy` (`Dicts`): Python's insertion-ordered `dict` as a value.
- `paths.dfy` (`Paths`): POSIX `dirname` and `get_dotenv_path`.
- `declarations.dfy` (`Declarations`): what the two line patterns extract
  from a line. It also holds the well-formedness rules taken from their
  character classes.
- `snapshot.dfy` (`Snapshot`): `get_dotenv_dict`, a loop that builds the
  snapshot of an existing `.env`.
- `named_values.dfy` (`NamedValues`): `get_value_key`, `dotenver`, and the
  class `Globals`. That class is the module-level state: `VARIABLES` plus the
  state of the fake-data instance.
- `merge.dfy` and `merge_properties.dfy` (`Merge`, `MergeProperties`):
  `parse_stream`. Its loop over the template lines is proved against the
  function `Merged` (the intermediate template) and the function `Captures`
  (the cache afterwards). The precedence, the line shape, the leftover block
  and the capture rules are proved about those functions.
- `render.dfy` (`Render`): rendering the intermediate template. It covers
  Python's binding of each `{{ dotenver(...) }}` call to the signature
  `dotenver(generator, name=None, quotes=None, escape_with="\\", **kwargs)`,
  and the render loop.
- `batch.dfy` and `batch_properties.dfy` (`Batch`, `BatchProperties`):
  `parse_files`. Its two loops are proved against `FirstPass` and
  `SecondPass`. The properties of the whole run are proved about those
  functions.

Three things are parameters of the model:

- the fake-data library: a function from generator, keyword arguments and
  the number of draws made so far to a value, or to `None` when the generator
  raises;
- Jinja's evaluation of the argument text of a directive: a function from
  the text to the positional and keyword arguments, or to `None`;
- the file system: the parsed lines of each template, and what each `.env`
  path holds.

`ParseFiles` returns the list of files to write and their contents. Writing
them is left to the caller.

Behaviour that is easy to misread, modelled as the code does it:

- A declaration whose variable exists in the `.env` is written with the
  template's left side (so any `export` comes from the template) and the
  existing value. An existing line without `=` has the value `None`, so it
  is written as `left_side=None` (`dotenver/dotenver.py:123`, `:148`).
- `VARIABLES` is never reset. A run starts from whatever state the last run
  left (`dotenver/dotenver.py:12`).
- A template path given twice is merged twice, but it is stored once in the
  dict of intermediate templates, at its first position. It is rendered and
  written once (`dotenver/dotenver.py:210`).
- Override mode never reads a `.env` (`dotenver/dotenver.py:205-207`).
- `get_dotenv_path` strips no suffix: the file is always `.env` in the
  template's directory. For `/file`, `dirname` gives `/`, and the result is
  `//.env` (`dotenver/dotenver.py:155-161`).
- When two `.env` files of one run hold different values for one
  `gen:name` pair, the first capture in path order is cached and reaches
  every rendered call of that pair. A template whose own `.env` holds the
  other value still writes that value on its own line, so the files do not
  agree (`dotenver/dotenver.py:108-123`, `:204-235`).
- The generator is called even when the key is already cached, because the
  default of `dict.get` is evaluated eagerly (`dotenver/dotenver.py:82`).
  The draw counter records that call.

## Model

| member | source | states |
|---|---|---|
| Text.StripLeading | dotenver/dotenver.py:136 | the result is a suffix of the input, everything dropped is whitespace, and the result does not start with whitespace |
| Text.StripTrailing | dotenver/dotenver.py:136 | the result is a prefix of the input, everything dropped is whitespace, and the result does not end with whitespace |
| Text.Strip | dotenver/dotenver.py:136 | definition of `str.strip()`: leading then trailing whitespace removed; characterised by `Text.StripLeading`, `Text.StripTrailing`, `Text.StripUnchanged` and `Text.StripRemovesNewline` |
| Text.StripRemovesNewline | dotenver/dotenver.py:136 | a line read from a file, whose only newline is its last character, has no newline once stripped |
| Text.EscapeGuardsQuotes | dotenver/dotenver.py:88 | after `replace(q, e + q)`, every `q` in the text stands right after a copy of `e` |
| Text.UnescapeEscape | dotenver/dotenver.py:88 | the quote escaping can be undone: unescaping the escaped value gives the value back |
| Text.OptionStrNoTrailingSpace | dotenver/dotenver.py:123 | the f-string of an existing value ends in whitespace only if the value does; `None` does not |
| Dicts.Dict.Put | dotenver/dotenver.py:180 | `d[k] = v` maps `k` to `v`; a new key goes last, and an existing key keeps its position |
| Dicts.Dict.Remove | dotenver/dotenver.py:110-113 | `del d[k]` with `KeyError` ignored drops `k` and keeps the other keys in order |
| Dicts.Dict.Values | dotenver/dotenver.py:147 | `d.values()` gives one value per key, in key order |
| Dicts.WithoutWithout | dotenver/dotenver.py:111 | deleting one set of keys and then another is deleting both at once |
| Paths.Dirname | dotenver/dotenver.py:155-161 | definition of `os.path.dirname`: the head before the last slash, trailing slashes removed unless it is all slashes; characterised by `Paths.DotenvPathShape` and `Paths.DotenvPathExamples` |
| Paths.DotenvPath | dotenver/dotenver.py:155-161 | the result always ends in `.env`; characterised by `Paths.DotenvPathShape`, `Paths.DotenvBasename` and `Paths.DotenvPathExamples` |
| Paths.DotenvPathShape | dotenver/dotenver.py:155-161 | the directory is empty exactly when the path has no slash, and the result is then `.env`; otherwise it is the directory followed by `/.env` |
| Paths.DotenvBasename | dotenver/dotenver.py:155-161 | the file's basename is always `.env`, whatever the template path |
| Paths.DotenvPathExamples | dotenver/dotenver.py:155-161 | `/path/to/file` gives `/path/to/.env`, `/file` gives `//.env`, and `file` gives `.env` |
| Declarations.LeftSideEdges | dotenver/dotenver.py:14-27 | a left side that either pattern matches starts and ends with a non-space character and holds no newline |
| Snapshot.EnvOf | dotenver/dotenver.py:173-180 | the snapshot of a file's lines is a well-formed dict; characterised by `Snapshot.EnvEntries`, `Snapshot.EnvOrder` and `Snapshot.EnvSkipsOther` |
| Snapshot.DotenvDict | dotenver/dotenver.py:164-191 | definition of what reading a `.env` gives: empty when missing, a read error when unreadable, else the snapshot of its lines; characterised by `Snapshot.GetDotenvDict` |
| Snapshot.GetDotenvDict | dotenver/dotenver.py:164-191 | a missing file gives an empty snapshot and an unreadable one an error; otherwise the loop builds the snapshot of the file's lines |
| Snapshot.EnvEntries | dotenver/dotenver.py:176-180 | a variable is in the snapshot exactly when some line assigns it; its entry is the one from the last such line |
| Snapshot.EnvOrder | dotenver/dotenver.py:173-180 | the snapshot's variables come in the order of their first assignment, each once |
| Snapshot.EnvSkipsOther | dotenver/dotenver.py:177-178 | a line the pattern does not match changes nothing |
| Snapshot.EnvOfOk | dotenver/dotenver.py:14-29 | every entry read from well-formed lines has a well-formed left side and value |
| NamedValues.ValueKey | dotenver/dotenver.py:53-62 | a key exists exactly when a name is given; characterised by `NamedValues.ValueKeyInjective` and `NamedValues.ValueKeyCollision` |
| NamedValues.ValueKeyInjective | dotenver/dotenver.py:53-62 | for generator names without `+`, two keys are equal only if the generators and the names are |
| NamedValues.ValueKeyCollision | dotenver/dotenver.py:59-60 | the key is a plain concatenation, so `a+b` with name `c` and `a` with name `b+c` share a key |
| NamedValues.QuoteRoundTrip | dotenver/dotenver.py:87-91 | with no quotes the stored value is returned as it is; with a quote `q` the text is `q`, the escaped value and `q`, and unescaping its inside gives the stored value |
| NamedValues.Quote | dotenver/dotenver.py:87-91 | without a quote string the value is returned as it is; with a valid quote the text starts and ends with it; characterised by `NamedValues.QuoteRoundTrip` |
| NamedValues.CaptureInto | dotenver/dotenver.py:116-121 | a captured key is cached afterwards; no cached key changes; the only new key is the captured one, holding the existing value |
| NamedValues.Call | dotenver/dotenver.py:65-91 | bad quotes fail before anything else is touched; a failing generator changes nothing; valid quotes and a generator that answers always succeed; on success one draw is made, the key is `get_value_key`'s, and the text is the quoted value; an unnamed call does not touch the cache; a named call returns the cached value when there is one, and otherwise stores the fresh draw as a string under its key and nothing else; no cached key ever changes |
| NamedValues.Globals.Dotenver | dotenver/dotenver.py:65-91 | the method's result and new state are those of `Call` on the old state |
| NamedValues.Globals.Capture | dotenver/dotenver.py:116-121 | an existing value is stored under a key only when the key is set and not yet cached; the fake-data state is untouched |
| NamedValues.Globals.constructor | dotenver/dotenver.py:12 | the cache starts empty, with no draws made |
| Merge.Remaining | dotenver/dotenver.py:101-113 | the copy of the snapshot that the loop deletes from stays a well-formed dict |
| Merge.SourceLine | dotenver/dotenver.py:108-134 | definition of the Python `line` built for a declaration; characterised by `MergeProperties.Precedence` and `MergeProperties.SourceLineStripped` |
| Merge.LineOut | dotenver/dotenver.py:123-136 | definition of what one template line writes; characterised by `MergeProperties.LineOutIsStrippedLine`, `MergeProperties.OneNewlinePerLine` and `MergeProperties.Precedence` |
| Merge.Merged | dotenver/dotenver.py:103-148 | definition of the intermediate template, the body and then the leftover block; characterised by `MergeProperties.BodyIsLines`, `MergeProperties.Leftovers` and `MergeProperties.MergeWithoutSnapshot` |
| Merge.Captures | dotenver/dotenver.py:116-121 | definition of the cache after the capture steps; characterised by `MergeProperties.CapturesKeepCached`, `MergeProperties.CapturesFirstWins` and `MergeProperties.CapturesWithoutSnapshot` |
| Merge.MergeLine | dotenver/dotenver.py:104-136 | one loop step writes that line's output, deletes a declared snapshot variable from the leftovers, and makes that line's capture |
| Merge.ParseStream | dotenver/dotenver.py:94-152 | the buffer is the intermediate template `Merged`, the cache is `Captures` of the old cache, and no draw is made |
| Merge.WriteLeftovers | dotenver/dotenver.py:138-148 | the header and one line per leftover entry are appended, and only when some entry is left |
| MergeProperties.LineOutIsStrippedLine | dotenver/dotenver.py:123-136 | each line's segments spell the stripped Python `line` and a newline, with the Jinja call of line 130 for a directive |
| MergeProperties.SourceLineStripped | dotenver/dotenver.py:136 | for a well-formed declaration, `strip` leaves the built line unchanged |
| MergeProperties.Precedence | dotenver/dotenver.py:108-134 | an existing value beats a directive, which beats a non-empty literal, which beats the bare left side; with an existing value no call is left to make |
| MergeProperties.DuplicateDeclarations | dotenver/dotenver.py:108-123 | a variable declared twice gets the existing value both times, each line with its own left side |
| MergeProperties.OneNewlinePerLine | dotenver/dotenver.py:136 | each template line's output holds exactly one newline, at its end |
| MergeProperties.BodyIsLines | dotenver/dotenver.py:103-136 | the body is the outputs of the template lines, one per line, in template order |
| MergeProperties.DeclaredMembers | dotenver/dotenver.py:106-111 | a variable is declared exactly when some matched template line names it |
| MergeProperties.RemainingIsUndeclared | dotenver/dotenver.py:101-113 | the leftovers are the snapshot without the declared variables, in snapshot order |
| MergeProperties.Leftovers | dotenver/dotenver.py:138-148 | after the body comes a block that is empty exactly when every snapshot variable is declared; otherwise it is the header and then each undeclared entry as `left_side=value`, in snapshot order |
| MergeProperties.CapturesKeepCached | dotenver/dotenver.py:116-121 | capturing never overwrites a cached key |
| MergeProperties.CapturesFirstWins | dotenver/dotenver.py:116-121 | a key is cached after the merge exactly when it was before or some line captures it; a newly cached key holds the value of the first line that captures it |
| MergeProperties.CapturesWithoutSnapshot | dotenver/dotenver.py:108-121 | with an empty snapshot nothing is captured |
| MergeProperties.MergeWithoutSnapshot | dotenver/dotenver.py:124-148 | with an empty snapshot there is no leftover block, and each declaration becomes its directive, literal or bare left side |
| Render.Extra | dotenver/dotenver.py:65 | `**kwargs` holds exactly the keywords that name no parameter |
| Render.Bind | dotenver/dotenver.py:65 | binding succeeds exactly when the positional arguments fit, no keyword repeats and no keyword names a parameter already given by position; the `gen:name` name binds to `name`, and the other keywords are `**kwargs` |
| Render.BindWithoutArguments | dotenver/dotenver.py:125-130 | a directive without arguments calls `dotenver` with its name or `None`, no quotes, a backslash escape and no keywords |
| Render.ArgumentByKeyword | dotenver/dotenver.py:65 | a parameter not filled by position takes the first keyword that names it |
| Render.ArgumentAbsent | dotenver/dotenver.py:65 | a parameter neither filled by position nor named by a keyword has no argument |
| Render.BindKeywords | dotenver/dotenver.py:65 | with only the generator given by position, `name`, `quotes` and `escape_with` take their keywords, or else `None`, `None` and a backslash |
| Render.Evaluate | dotenver/dotenver.py:65-91 | a call without arguments is `dotenver` with the defaults; argument text that cannot be evaluated fails with the state unchanged; evaluated arguments that do not bind fail with the binding error, and ones that bind are `dotenver` with the bound `name`, `quotes`, `escape_with` and `**kwargs`; a named call has key `gen+name`; success costs one draw; failure changes nothing; no cached key changes |
| Render.EvaluateCall | dotenver/dotenver.py:227 | evaluating one call on the global state gives the result and new state of `Evaluate` |
| Render.RenderSpec | dotenver/dotenver.py:227 | a successful render gives text for each literal and a value for each call, in order, and each named call carries its key; it makes one draw per call |
| Render.RenderExtends | dotenver/dotenver.py:84-85 | rendering never changes a cached key |
| Render.RenderNamedConsistency | dotenver/dotenver.py:80-85 | in a rendered template, every named value is the final cached value of its key; a key cached before the render keeps its earlier value |
| Render.RenderSucceeds | dotenver/dotenver.py:227 | a template whose directives carry no argument text renders without error whenever the fake-data library answers every call |
| Render.RenderFailurePersists | dotenver/dotenver.py:227 | once a call fails, the render fails with that error, and later calls are not made |
| Render.RenderTemplate | dotenver/dotenver.py:227 | the render loop's text, error and state are those of `RenderSpec` |
| Batch.SnapshotFor | dotenver/dotenver.py:205-207 | in override mode the snapshot is empty |
| Batch.MergeStep | dotenver/dotenver.py:205-212 | a template that cannot be opened, or whose `.env` cannot be read, leaves the cache as it was |
| Batch.FirstPass | dotenver/dotenver.py:204-220 | a successful first pass gives a well-formed dict of intermediate templates |
| Batch.SecondPass | dotenver/dotenver.py:225-235 | a successful second pass renders each template path once, in order |
| Batch.SecondPassSucceeds | dotenver/dotenver.py:225-235 | the second pass renders every template without error when no directive carries argument text and the fake-data library answers every call |
| Batch.FirstPassFailurePersists | dotenver/dotenver.py:213-220 | a failure in the first pass ends the run with that failure |
| Batch.SecondPassFailurePersists | dotenver/dotenver.py:228-235 | a failure in the second pass ends the run with that failure |
| Batch.MergeTemplate | dotenver/dotenver.py:205-212 | merging one template against the global cache gives `MergeStep` |
| Batch.FirstPassRun | dotenver/dotenver.py:204-220 | the first loop's dict and cache are those of `FirstPass`, and no draw is made |
| Batch.SecondPassRun | dotenver/dotenver.py:225-235 | the second loop's texts, error and state are those of `SecondPass` |
| Batch.ParseFilesSpec | dotenver/dotenver.py:194-256 | definition of a whole run: first pass, second pass, then the files to write; characterised by `Batch.ParseFiles`, `BatchProperties.OverrideRun`, `BatchProperties.SecondPassConsistency` and `BatchProperties.WritePlan` |
| Batch.ParseFiles | dotenver/dotenver.py:194-256 | the run's files and final state are those of `ParseFilesSpec` on the state it starts from |
| Batch.PlanWrites | dotenver/dotenver.py:237-241 | each rendered text goes to the `.env` of its template's directory, in rendering order |
| Batch.Writes | dotenver/dotenver.py:237-241 | one file per rendered template, in rendering order, each at the `.env` of its template's directory; characterised by `BatchProperties.WritePlan` |
| BatchProperties.OverrideIgnoresDotenvs | dotenver/dotenver.py:205-207 | in override mode the first pass does not depend on the `.env` files and captures nothing |
| BatchProperties.OverrideRun | dotenver/dotenver.py:194-249 | in override mode the whole run, files and state, does not depend on the `.env` files |
| BatchProperties.FirstPassKeys | dotenver/dotenver.py:204-212 | the intermediate templates are keyed by the template paths, each once, in first-occurrence order |
| BatchProperties.FirstPassEntries | dotenver/dotenver.py:209-212 | each path's intermediate template is the merge of its own lines against its own snapshot |
| BatchProperties.FirstPassExtends | dotenver/dotenver.py:204-220 | the first pass never changes a cached key |
| BatchProperties.FirstPassCaptures | dotenver/dotenver.py:200-220 | after the first pass, every key that some template of the run captures is cached |
| BatchProperties.FirstPassCachedOnlyCaptured | dotenver/dotenver.py:204-220 | a key the run did not start with is cached after the first pass only if some template of the run captures it |
| BatchProperties.FirstPassFirstCaptureWins | dotenver/dotenver.py:116-121 | for a key the run did not start with, the first pass caches the existing value of the first capturing line in the first capturing template, in path order; later `.env` files with another value do not change it |
| BatchProperties.SecondPassExtends | dotenver/dotenver.py:225-235 | the second pass never changes a cached key |
| BatchProperties.SecondPassConsistency | dotenver/dotenver.py:222-235 | across all rendered templates, every named value is the final cached value of its key, and a key cached before rendering keeps that value |
| BatchProperties.CapturedValuesReachEveryTemplate | dotenver/dotenver.py:200-235 | every key a template of the run captures is cached before rendering, and the value rendered for a `gen:name` pair in every template, before or after the capturing one, is the value the cache holds after the first pass |
| BatchProperties.WritePlan | dotenver/dotenver.py:237-241 | one file is written per distinct template path, in first-occurrence order, to the `.env` of its directory |

## Left out

- The regular expressions (`dotenver/dotenver.py:14-49`) are not matched or
  backtracked. A parsed line is an input of the model, constrained by
  `Declarations.WellFormed` and `Declarations.AssignmentOk` to the character
  classes and shapes that a match always has.
- The fake-data library is a parameter. Which values it draws, and the
  `AttributeError` of an unknown generator, are not modelled; the latter is
  the parameter returning `None`.
- Jinja is not modelled. The argument text of a directive is evaluated by a
  parameter function. Literal text is copied as it is, so a `{{`, `{%` or
  `{#` in a value, a comment or an existing value is not interpreted.
- Render.Evaluate: argument text that Jinja cannot compile fails at render
  time, in the second pass. In the code, `env.from_string` raises it in the
  first pass. Either way the run fails before anything is written, but the
  captures of the later templates, and so the final cache, differ.
- BatchProperties.CapturedValuesReachEveryTemplate: holds in the model for
  every name, but not in the code for all names. Lines 125-127 put the
  generator and the name inside Jinja string literals `'…'`. Jinja decodes
  a backslash escape there, and a `'` ends the literal. The capture at line
  116 keys on the raw name, while the render keys on the decoded one, so for
  a name holding `\` or `'` the captured value does not reach the render.
  `Declarations.IsName` admits both characters, and the model passes the raw
  name to the call.
- Batch.MergeStep: a template that cannot be opened fails before any
  capture. A read error raised part-way through the lines (line 103), such
  as a decoding error in a later part of the file, is not modelled. In the
  code the captures of the lines before it stay in `VARIABLES` for the
  next run.
- File opening, reading and writing are not modelled. A file's text is
  given as parsed lines, and `\r\n` line ends are not distinguished.
- Batch.ParseFiles: returns the planned writes instead of writing them. A
  write that fails part-way, after earlier files were already written, is
  not modelled.
- Batch.ParseFiles: several templates in one directory share one `.env`.
  The plan lists one write for each, and the last one wins on disk. Each such
  template also reads the old `.env` as its snapshot.
- The colorama set-up, the error messages on stderr and the success message
  (`dotenver/dotenver.py:184-189`, `:214-219`, `:229-234`, `:243-256`) are
  left out. An error becomes the `Error` value that ends the run.
- `dotenver/cli.py` is not part of this model. Its one comparison of a
  template path with its `.env` is served by `Paths.DotenvBasename`.
- Running the tool twice on its own output is not claimed to be idempotent,
  and that is not proved. Drawing depends on the fake-data parameter, and
  an unassigned line is written back as `=None`.
