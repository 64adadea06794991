/** The named-value cache (`VARIABLES`) and the `dotenver` call that reads and
    fills it while a template is rendered. */
module NamedValues {
  import opened Wrappers
  import opened Text
  import opened Errors

  /** A Python value handed to `dotenver` by the template engine. `Other`
      stands for any object that is neither a string nor `None`, written as
      its `str()`. */
  datatype PyValue = PyNone | PyString(s: string) | PyOther(display: string)

  /** `str(v)`, as an f-string renders it. */
  function Str(v: PyValue): string {
    match v
    case PyNone => "None"
    case PyString(s) => s
    case PyOther(d) => d
  }

  /** Keyword arguments passed on to the generator, in call order. */
  type Kwargs = seq<(string, PyValue)>

  /** The fake-data library: generator name, keyword arguments and the number
      of draws made so far (the library's own random state) give a value
      already converted with `str()`, or `None` when the call raises. */
  type Faker = (string, Kwargs, nat) -> Option<string>

  /** `VARIABLES` and the state of the fake-data instance. */
  datatype GlobalState = GlobalState(variables: map<string, Option<string>>, draws: nat)

  /** One resolved call: its cache key, the value before quoting, and the text
      that goes into the output. */
  datatype Resolved = Resolved(key: Option<string>, raw: string, text: string)

  /** `get_value_key`: a key exists exactly when a name is given. */
  function ValueKey(generator: string, name: PyValue): (key: Option<string>)
    ensures key.Some? <==> name != PyNone
  {
    if name != PyNone then Some(generator + "+" + Str(name)) else None
  }

  predicate NoPlus(s: string) {
    forall i :: 0 <= i < |s| ==> s[i] != '+'
  }

  /** Generator names of the fake-data library are identifiers, so two keys
      built from such names are equal only if generator and name are. */
  lemma ValueKeyInjective(g1: string, n1: PyValue, g2: string, n2: PyValue)
    requires NoPlus(g1) && NoPlus(g2)
    requires ValueKey(g1, n1).Some? && ValueKey(g1, n1) == ValueKey(g2, n2)
    ensures g1 == g2 && Str(n1) == Str(n2)
  {
    var k := ValueKey(g1, n1).value;
    assert k == g1 + "+" + Str(n1) == g2 + "+" + Str(n2);
    assert (g1 + "+" + Str(n1))[|g1|] == '+' && (g2 + "+" + Str(n2))[|g2|] == '+';
    assert g1 == k[..|g1|] == g2;
    assert Str(n1) == k[|g1| + 1..] == Str(n2);
  }

  /** The key is a plain concatenation: a `+` inside a generator name makes
      two different pairs share one key. */
  lemma ValueKeyCollision()
    ensures ValueKey("a+b", PyString("c")) == ValueKey("a", PyString("b+c"))
  {
    assert "a+b" + "+" + "c" == "a" + "+" + "b+c";
  }

  /** The only quote options `dotenver` accepts. */
  predicate ValidQuotes(quotes: PyValue) {
    quotes == PyNone || quotes == PyString("'") || quotes == PyString("\"")
  }

  /** Wrap `value` in the quote character, each inner quote escaped. */
  function Quote(value: string, quotes: PyValue, escapeWith: PyValue): (text: string)
    ensures !quotes.PyString? ==> text == value
    ensures ValidQuotes(quotes) && quotes != PyNone ==>
      |text| >= 2 && text[0] == quotes.s[0] && text[|text| - 1] == quotes.s[0]
  {
    match quotes
    case PyString(q) => if |q| == 1 then q + Escape(value, q[0], Str(escapeWith)) + q else value
    case _ => value
  }

  /** With no quotes the value is returned as stored; with a quote character
      the text is that character, the escaped value and the character again,
      and the escaping can be undone. */
  lemma QuoteRoundTrip(value: string, quotes: PyValue, escapeWith: PyValue)
    requires ValidQuotes(quotes)
    ensures quotes == PyNone ==> Quote(value, quotes, escapeWith) == value
    ensures quotes != PyNone ==>
      var t := Quote(value, quotes, escapeWith);
      var q := quotes.s[0];
      |t| >= 2 && t[0] == q && t[|t| - 1] == q
      && Unescape(t[1..|t| - 1], q, Str(escapeWith)) == value
  {
    if quotes != PyNone {
      var q := quotes.s[0];
      var t := Quote(value, quotes, escapeWith);
      var body := Escape(value, q, Str(escapeWith));
      assert t == [q] + body + [q];
      assert t[1..|t| - 1] == body;
      UnescapeEscape(value, q, Str(escapeWith));
    }
  }

  /** The ordering `dotenver` follows: the quotes are checked first, the
      generator is called even when the key is cached (the default of
      `dict.get` is evaluated eagerly), a cached value wins over the freshly drawn one,
      and a new key is stored once. */
  function Call(st: GlobalState, fake: Faker, generator: string, name: PyValue, quotes: PyValue,
                escapeWith: PyValue, kwargs: Kwargs): (out: (Result<Resolved, Error>, GlobalState))
    ensures !ValidQuotes(quotes) ==> out == (Failure(QuotesError), st)
    ensures ValidQuotes(quotes) && fake(generator, kwargs, st.draws).None? ==> out == (Failure(GeneratorError(generator)), st)
    ensures ValidQuotes(quotes) && fake(generator, kwargs, st.draws).Some? ==> out.0.Success?
    ensures out.0.Success? ==>
      && out.1.draws == st.draws + 1
      && out.0.value.key == ValueKey(generator, name)
      && out.0.value.text == Quote(out.0.value.raw, quotes, escapeWith)
    ensures out.0.Success? && out.0.value.key.None? ==>
      out.1.variables == st.variables && out.0.value.raw == fake(generator, kwargs, st.draws).value
    ensures out.0.Success? && out.0.value.key.Some? ==>
      var k := out.0.value.key.value;
      && out.1.variables.Keys == st.variables.Keys + {k}
      && out.0.value.raw == OptionStr(out.1.variables[k])
      && (k in st.variables ==> out.1.variables == st.variables)
      && (k !in st.variables ==>
            && out.0.value.raw == fake(generator, kwargs, st.draws).value
            && out.1.variables == st.variables[k := Some(out.0.value.raw)])
    ensures forall k :: k in st.variables ==> k in out.1.variables && out.1.variables[k] == st.variables[k]
  {
    if !ValidQuotes(quotes) then (Failure(QuotesError), st)
    else
      var key := ValueKey(generator, name);
      match fake(generator, kwargs, st.draws)
      case None => (Failure(GeneratorError(generator)), st)
      case Some(drawn) =>
        var raw := if key.Some? && key.value in st.variables then OptionStr(st.variables[key.value]) else drawn;
        var variables := if key.Some? && key.value !in st.variables then st.variables[key.value := Some(raw)] else st.variables;
        (Success(Resolved(key, raw, Quote(raw, quotes, escapeWith))), GlobalState(variables, st.draws + 1))
  }

  /** Lines 116-121 of the merge: store an existing value under a key that is
      not yet set; a set key is never overwritten. */
  function CaptureInto(variables: map<string, Option<string>>, key: Option<string>, value: Option<string>): (r: map<string, Option<string>>)
    ensures forall k :: k in variables ==> k in r && r[k] == variables[k]
    ensures key.Some? ==> key.value in r
    ensures forall k :: k in r && k !in variables ==> key == Some(k) && r[k] == value
  {
    if key.Some? && key.value !in variables then variables[key.value := value] else variables
  }

  /** The module-level cache and fake-data instance, shared by every template
      of a run and never reset between runs. */
  class Globals {
    var variables: map<string, Option<string>>
    var draws: nat

    /** The state at import time: `VARIABLES = {}`, a fresh `Faker()`, no draws made yet. */
    constructor ()
      ensures variables == map[] && draws == 0
    {
      variables := map[];
      draws := 0;
    }

    function State(): GlobalState
      reads this
    {
      GlobalState(variables, draws)
    }

    /** `dotenver(generator, name, quotes, escape_with, **kwargs)` */
    method Dotenver(fake: Faker, generator: string, name: PyValue, quotes: PyValue,
                    escapeWith: PyValue, kwargs: Kwargs) returns (r: Result<Resolved, Error>)
      modifies this
      ensures (r, State()) == Call(old(State()), fake, generator, name, quotes, escapeWith, kwargs)
    {
      if !ValidQuotes(quotes) {
        return Failure(QuotesError);
      }
      var key := ValueKey(generator, name);
      var drawn := fake(generator, kwargs, draws);
      if drawn.None? {
        return Failure(GeneratorError(generator));
      }
      var value := if key.Some? && key.value in variables then OptionStr(variables[key.value]) else drawn.value;
      draws := draws + 1;
      if key.Some? && key.value !in variables {
        variables := variables[key.value := Some(value)];
      }
      r := Success(Resolved(key, value, Quote(value, quotes, escapeWith)));
    }

    /** Keep track of an existing named value. */
    method Capture(key: Option<string>, value: Option<string>)
      modifies this
      ensures variables == CaptureInto(old(variables), key, value)
      ensures draws == old(draws)
    {
      if key.Some? && key.value !in variables {
        variables := variables[key.value := value];
      }
    }
  }
}
