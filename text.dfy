/** Python string operations the merge engine relies on: whitespace, `strip`,
    `replace` of a quote character, and the f-string rendering of `None`. */
module Text {
  import opened Wrappers

  /** Python's `str.isspace()` for one character; `\s` in a `str` regular
      expression matches the same characters. */
  predicate IsSpace(c: char) {
    var n := c as int;
    (0x09 <= n <= 0x0D) || (0x1C <= n <= 0x20) || n == 0x85 || n == 0xA0 || n == 0x1680
    || (0x2000 <= n <= 0x200A) || n == 0x2028 || n == 0x2029 || n == 0x202F
    || n == 0x205F || n == 0x3000
  }

  predicate NoNewline(s: string) {
    forall i :: 0 <= i < |s| ==> s[i] != '\n'
  }

  /** The last character, if any, is not whitespace. */
  predicate NoTrailingSpace(s: string) {
    s == [] || !IsSpace(s[|s| - 1])
  }

  /** `s` with its maximal leading run of whitespace removed. */
  function StripLeading(s: string): (r: string)
    ensures |r| <= |s| && r == s[|s| - |r|..]
    ensures forall i :: 0 <= i < |s| - |r| ==> IsSpace(s[i])
    ensures r == [] || !IsSpace(r[0])
  {
    if |s| > 0 && IsSpace(s[0]) then StripLeading(s[1..]) else s
  }

  /** `s` with its maximal trailing run of whitespace removed. */
  function StripTrailing(s: string): (r: string)
    ensures |r| <= |s| && r == s[..|r|]
    ensures forall i :: |r| <= i < |s| ==> IsSpace(s[i])
    ensures NoTrailingSpace(r)
  {
    if |s| > 0 && IsSpace(s[|s| - 1]) then StripTrailing(s[..|s| - 1]) else s
  }

  /** Python's `str.strip()` with no argument. */
  function Strip(s: string): string {
    StripTrailing(StripLeading(s))
  }

  /** A string that begins and ends with a non-space character is left alone. */
  lemma StripUnchanged(s: string)
    requires s != [] && !IsSpace(s[0]) && !IsSpace(s[|s| - 1])
    ensures Strip(s) == s
  {
  }

  /** Leading whitespace is only looked for before the first non-space. */
  lemma {:induction false} StripLeadingAppend(a: string, b: string)
    requires b != [] && !IsSpace(b[0])
    ensures StripLeading(a + b) == StripLeading(a) + b
  {
    if a == [] {
      assert a + b == b;
    } else if IsSpace(a[0]) {
      assert (a + b)[1..] == a[1..] + b;
      StripLeadingAppend(a[1..], b);
    }
  }

  lemma AppendAssoc<T>(x: seq<T>, y: seq<T>, z: seq<T>)
    ensures (x + y) + z == x + (y + z)
  {
  }

  lemma SnocSplit<T>(xs: seq<T>)
    requires xs != []
    ensures xs[..|xs| - 1] + [xs[|xs| - 1]] == xs
  {
  }

  lemma TailSnoc<T>(xs: seq<T>, x: T)
    requires xs != []
    ensures (xs + [x])[0] == xs[0] && (xs + [x])[1..] == xs[1..] + [x]
  {
  }

  lemma PrefixIndex<T>(xs: seq<T>)
    requires xs != []
    ensures forall k :: 0 <= k < |xs| - 1 ==> xs[..|xs| - 1][k] == xs[k]
  {
  }

  /** A slice that lies inside the second part of a concatenation. */
  lemma SliceOfAppend<T>(x: seq<T>, y: seq<T>, lo: int, hi: int)
    requires |x| <= lo <= hi <= |x| + |y|
    ensures (x + y)[lo..hi] == y[lo - |x|..hi - |x|]
  {
  }

  /** Stripping `a`, a non-space separator and a `b` that does not end with
      a space only strips the front of `a`. */
  lemma StripKeepsTail(a: string, sep: char, b: string)
    requires !IsSpace(sep) && NoTrailingSpace(b)
    ensures Strip(a + [sep] + b) == StripLeading(a) + [sep] + b
  {
    AppendAssoc(a, [sep], b);
    StripLeadingAppend(a, [sep] + b);
    AppendAssoc(StripLeading(a), [sep], b);
  }

  /** `name=value` is left alone by `strip` when `name` begins and ends with a
      non-space character and `value` does not end with one. */
  lemma StripAssignment(name: string, value: string)
    requires name != [] && !IsSpace(name[0]) && !IsSpace(name[|name| - 1])
    requires NoTrailingSpace(value)
    ensures Strip(name + "=" + value) == name + "=" + value
  {
    var s := name + "=" + value;
    assert s[0] == name[0];
    assert s[|s| - 1] == if value == [] then '=' else value[|value| - 1];
    StripUnchanged(s);
  }

  lemma NoNewlineAppend(a: string, b: string)
    requires NoNewline(a) && NoNewline(b)
    ensures NoNewline(a + b)
  {
    forall i | 0 <= i < |a + b| ensures (a + b)[i] != '\n' {
      if i >= |a| { assert (a + b)[i] == b[i - |a|]; }
    }
  }

  lemma NoNewlineAssignment(name: string, value: string)
    requires NoNewline(name) && NoNewline(value)
    ensures NoNewline(name + "=" + value)
  {
    NoNewlineAppend(name, "=");
    NoNewlineAppend(name + "=", value);
  }

  /** `x + "\n"` holds one newline, its last character. */
  lemma NewlineTerminated(x: string)
    requires NoNewline(x)
    ensures var s := x + "\n"; s != [] && s[|s| - 1] == '\n' && NoNewline(s[..|s| - 1])
  {
    var s := x + "\n";
    assert s[..|s| - 1] == x;
  }

  /** A line whose only newline, if any, is its last character has none once
      stripped. */
  lemma StripRemovesNewline(s: string)
    requires forall i :: 0 <= i < |s| - 1 ==> s[i] != '\n'
    ensures NoNewline(Strip(s))
  {
    var l := StripLeading(s);
    var t := StripTrailing(l);
    assert IsSpace('\n');
    assert t == [] || t[|t| - 1] != '\n';
    NoNewlineBeforeEnd(s, l, t);
  }

  /** A prefix of a suffix of `s` that does not end in `s`'s one newline
      holds no newline. */
  lemma NoNewlineBeforeEnd(s: string, l: string, t: string)
    requires forall i :: 0 <= i < |s| - 1 ==> s[i] != '\n'
    requires |l| <= |s| && l == s[|s| - |l|..]
    requires |t| <= |l| && t == l[..|t|]
    requires t == [] || t[|t| - 1] != '\n'
    ensures NoNewline(t)
  {
    forall i | 0 <= i < |t| ensures t[i] != '\n' {
      assert t[i] == s[|s| - |l| + i];
    }
  }

  /** `s.replace(q, e + q)` for a one-character string `q`: every `q` becomes
      `e` followed by `q`, every other character stays. */
  function Escape(s: string, q: char, e: string): string {
    if s == [] then [] else (if s[0] == q then e + [q] else [s[0]]) + Escape(s[1..], q, e)
  }

  lemma {:induction false} EscapeAppend(a: string, b: string, q: char, e: string)
    ensures Escape(a + b, q, e) == Escape(a, q, e) + Escape(b, q, e)
  {
    if a != [] {
      assert (a + b)[1..] == a[1..] + b;
      EscapeAppend(a[1..], b, q, e);
    } else {
      assert a + b == b;
    }
  }

  /** When `e` holds no `q`, every `q` in the escaped text stands right after
      a copy of `e`. */
  lemma {:induction false} EscapeGuardsQuotes(s: string, q: char, e: string, i: nat)
    requires forall j :: 0 <= j < |e| ==> e[j] != q
    requires i < |Escape(s, q, e)| && Escape(s, q, e)[i] == q
    ensures |e| <= i && Escape(s, q, e)[i - |e|..i] == e
    decreases |s|
  {
    assert s != [];
    var head := if s[0] == q then e + [q] else [s[0]];
    var tail := Escape(s[1..], q, e);
    var r := Escape(s, q, e);
    assert r == head + tail;
    if i >= |head| {
      assert tail[i - |head|] == q;
      EscapeGuardsQuotes(s[1..], q, e, i - |head|);
      SliceOfAppend(head, tail, i - |e|, i);
    } else {
      assert s[0] == q && i == |e|;
      assert r[..|e|] == e;
    }
  }

  /** The inverse of Escape, read from the right: a final `q` closes an
      escaped quote, any other final character stands for itself. */
  function Unescape(s: string, q: char, e: string): string
    decreases |s|
  {
    if s == [] then []
    else if s[|s| - 1] == q && |s| > |e| then Unescape(s[..|s| - 1 - |e|], q, e) + [q]
    else Unescape(s[..|s| - 1], q, e) + [s[|s| - 1]]
  }

  lemma {:induction false} UnescapeEscape(s: string, q: char, e: string)
    ensures Unescape(Escape(s, q, e), q, e) == s
    decreases |s|
  {
    if s != [] {
      var init, c := s[..|s| - 1], s[|s| - 1];
      assert s == init + [c];
      EscapeAppend(init, [c], q, e);
      UnescapeEscape(init, q, e);
      var x := Escape(init, q, e);
      if c == q {
        assert Escape([c], q, e) == e + [q];
        assert (x + e + [q])[..|x + e + [q]| - 1 - |e|] == x;
      } else {
        assert Escape([c], q, e) == [c];
        assert (x + [c])[..|x + [c]| - 1] == x;
      }
    }
  }

  /** Python's f-string rendering of a string or of `None`. */
  function OptionStr(v: Option<string>): string {
    match v
    case None => "None"
    case Some(s) => s
  }

  lemma OptionStrNoNewline(v: Option<string>)
    requires v.Some? ==> NoNewline(v.value)
    ensures NoNewline(OptionStr(v))
  {
  }

  /** The rendering of an optional value ends in a space only if the value does. */
  lemma OptionStrNoTrailingSpace(v: Option<string>)
    requires v.Some? ==> NoTrailingSpace(v.value)
    ensures NoTrailingSpace(OptionStr(v))
  {
  }
}
