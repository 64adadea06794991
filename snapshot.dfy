/** The environment snapshot reader, `get_dotenv_dict`: an existing `.env`
    becomes an insertion-ordered map from variable to the pair
    (assignment, value). */
module Snapshot {
  import opened Wrappers
  import opened Errors
  import opened Declarations
  import opened Dicts
  import opened Text

  /** The pair `(assignment, value)`; an unassigned variable has no value. */
  datatype Entry = Entry(leftSide: string, value: Option<string>)

  type Env = Dict<string, Entry>

  /** What opening the file gives: it is missing, reading it raises, or its
      lines as the plain pattern parses them. */
  datatype DotenvFile = Missing | Unreadable | Present(lines: seq<EnvLine>)

  /** The map the reading loop has built after `lines`. */
  function EnvOf(lines: seq<EnvLine>): (env: Env)
    ensures env.Valid()
  {
    if lines == [] then Empty()
    else
      var env := EnvOf(lines[..|lines| - 1]);
      match lines[|lines| - 1]
      case Assignment(leftSide, variable, value) => env.Put(variable, Entry(leftSide, value))
      case Other(_) => env
  }

  /** What `get_dotenv_dict(dotenv_path)` returns or raises for the file at
      `path`. */
  function DotenvDict(path: string, file: DotenvFile): Result<Env, Error> {
    match file
    case Missing => Success(Empty())
    case Unreadable => Failure(ReadError(path))
    case Present(lines) => Success(EnvOf(lines))
  }

  /** `get_dotenv_dict(dotenv_path)` */
  method GetDotenvDict(path: string, file: DotenvFile) returns (r: Result<Env, Error>)
    ensures file.Missing? ==> r == Success(Empty())
    ensures file.Unreadable? ==> r == Failure(ReadError(path))
    ensures file.Present? ==> r == Success(EnvOf(file.lines))
    ensures r == DotenvDict(path, file)
  {
    match file
    case Missing =>
      r := Success(Empty());
    case Unreadable =>
      r := Failure(ReadError(path));
    case Present(lines) =>
      var values: Env := Empty();
      for i := 0 to |lines|
        invariant values == EnvOf(lines[..i])
      {
        assert lines[..i + 1][..i] == lines[..i];
        match lines[i]
        case Assignment(leftSide, variable, value) =>
          values := values.Put(variable, Entry(leftSide, value));
        case Other(_) =>
      }
      assert lines[..|lines|] == lines;
      r := Success(values);
  }

  predicate Assigns(l: EnvLine, variable: string) {
    l.Assignment? && l.variable == variable
  }

  /** A variable is in the snapshot exactly when some line assigns it, and its
      entry is the one of the last such line: a later duplicate overwrites the
      value. */
  lemma {:induction false} EnvEntries(lines: seq<EnvLine>, variable: string)
    ensures variable in EnvOf(lines).items <==> exists i :: 0 <= i < |lines| && Assigns(lines[i], variable)
    ensures forall i :: 0 <= i < |lines| && Assigns(lines[i], variable)
                        && (forall j :: i < j < |lines| ==> !Assigns(lines[j], variable)) ==>
              EnvOf(lines).items[variable] == Entry(lines[i].leftSide, lines[i].value)
  {
    if lines != [] {
      var init := lines[..|lines| - 1];
      EnvEntries(init, variable);
      forall i | 0 <= i < |init| ensures init[i] == lines[i] { }
      if Assigns(lines[|lines| - 1], variable) {
        assert Assigns(lines[|lines| - 1], variable);
      } else {
        forall i | 0 <= i < |lines| && Assigns(lines[i], variable)
          ensures i < |init| && Assigns(init[i], variable)
        {
        }
      }
    }
  }

  /** The variables assigned by `lines`, in file order, repeats included. */
  function Assigned(lines: seq<EnvLine>): seq<string> {
    if lines == [] then []
    else Assigned(lines[..|lines| - 1]) + (if lines[|lines| - 1].Assignment? then [lines[|lines| - 1].variable] else [])
  }

  /** The first occurrence of every element, in order. */
  function Dedup(xs: seq<string>): seq<string>
    decreases |xs|
  {
    if xs == [] then [] else [xs[0]] + Dedup(Without(xs[1..], {xs[0]}))
  }

  lemma {:induction false} WithoutSnoc(xs: seq<string>, x: string, drop: set<string>)
    ensures Without(xs + [x], drop) == Without(xs, drop) + (if x in drop then [] else [x])
  {
    if xs == [] {
      assert xs + [x] == [x];
    } else {
      assert (xs + [x])[1..] == xs[1..] + [x];
      WithoutSnoc(xs[1..], x, drop);
    }
  }

  lemma {:induction false} DedupSnoc(xs: seq<string>, x: string)
    ensures Dedup(xs + [x]) == if x in xs then Dedup(xs) else Dedup(xs) + [x]
    decreases |xs|
  {
    if xs == [] {
      assert Dedup([x]) == [x] + Dedup(Without([], {x}));
    } else {
      var y, rest := xs[0], xs[1..];
      TailSnoc(xs, x);
      WithoutSnoc(rest, x, {y});
      var w := Without(rest, {y});
      if x == y {
        assert Without(rest + [x], {y}) == w;
      } else {
        DedupSnoc(w, x);
        assert x in w <==> x in rest;
        assert Dedup(xs + [x]) == [y] + Dedup(w + [x]);
      }
    }
  }

  /** The snapshot keeps each variable at the position of its first
      assignment, however often it is assigned again. */
  lemma {:induction false} EnvOrder(lines: seq<EnvLine>)
    ensures EnvOf(lines).keys == Dedup(Assigned(lines))
  {
    if lines != [] {
      var init := lines[..|lines| - 1];
      EnvOrder(init);
      var last := lines[|lines| - 1];
      if !last.Assignment? {
        assert EnvOf(lines) == EnvOf(init);
        assert Assigned(lines) == Assigned(init) + [] == Assigned(init);
      } else {
        assert Assigned(lines) == Assigned(init) + [last.variable];
        DedupSnoc(Assigned(init), last.variable);
        assert last.variable in EnvOf(init).items <==> last.variable in Assigned(init) by {
          assert EnvOf(init).Valid();
          assert EnvOf(init).items.Keys == set k | k in EnvOf(init).keys;
          DedupMembers(Assigned(init));
        }
      }
    }
  }

  lemma {:induction false} DedupMembers(xs: seq<string>)
    ensures forall x :: x in Dedup(xs) <==> x in xs
    decreases |xs|
  {
    if xs != [] {
      DedupMembers(Without(xs[1..], {xs[0]}));
    }
  }

  /** A line that does not match (a comment, a blank line) changes nothing. */
  lemma {:induction false} EnvSkipsOther(before: seq<EnvLine>, text: string, after: seq<EnvLine>)
    ensures EnvOf(before + [Other(text)] + after) == EnvOf(before + after)
    decreases |after|
  {
    if after == [] {
      var with := before + [Other(text)];
      assert with[..|with| - 1] == before && with[|with| - 1] == Other(text);
      assert before + [Other(text)] + after == with;
      assert before + after == before;
    } else {
      var init, x := after[..|after| - 1], after[|after| - 1];
      EnvSkipsOther(before, text, init);
      var with := before + [Other(text)] + init;
      var without := before + init;
      assert before + [Other(text)] + after == with + [x];
      assert before + after == without + [x];
      assert (with + [x])[..|with|] == with;
      assert (without + [x])[..|without|] == without;
    }
  }

  /** Every entry of a snapshot read from well-formed lines is well formed. */
  predicate EnvOk(env: Env) {
    forall v :: v in env.items ==> AssignmentOk(env.items[v].leftSide, v, env.items[v].value)
  }

  lemma {:induction false} EnvOfOk(lines: seq<EnvLine>)
    requires forall i :: 0 <= i < |lines| ==> EnvLineOk(lines[i])
    ensures EnvOk(EnvOf(lines))
  {
    if lines != [] {
      EnvOfOk(lines[..|lines| - 1]);
    }
  }
}
