/** Where a template's environment file goes: `get_dotenv_path`, built on
    POSIX `os.path.dirname`. */
module Paths {

  /** `p[:p.rfind("/") + 1]`: everything up to and including the last slash. */
  function Head(p: string): (h: string)
    ensures |h| <= |p| && h == p[..|h|]
    ensures h == [] || h[|h| - 1] == '/'
    ensures forall i :: |h| <= i < |p| ==> p[i] != '/'
  {
    if p == [] then [] else if p[|p| - 1] == '/' then p else Head(p[..|p| - 1])
  }

  /** `os.path.basename`: everything after the last slash. */
  function Basename(p: string): string {
    p[|Head(p)|..]
  }

  predicate AllSlashes(s: string) {
    forall i :: 0 <= i < |s| ==> s[i] == '/'
  }

  /** `s.rstrip("/")` */
  function StripSlashes(s: string): (r: string)
    ensures |r| <= |s| && r == s[..|r|]
    ensures r == [] || r[|r| - 1] != '/'
    ensures AllSlashes(s[|r|..])
  {
    if s != [] && s[|s| - 1] == '/' then
      var r := StripSlashes(s[..|s| - 1]);
      assert s[|r|..] == s[..|s| - 1][|r|..] + [s[|s| - 1]];
      r
    else s
  }

  /** `posixpath.dirname`: the head without its trailing slashes, unless the
      head is nothing but slashes. */
  function Dirname(p: string): string {
    var head := Head(p);
    if head != [] && !AllSlashes(head) then StripSlashes(head) else head
  }

  /** `get_dotenv_path`: `.env` in the template's directory. */
  function DotenvPath(templatePath: string): (path: string)
    ensures |path| >= 4 && path[|path| - 4..] == ".env"
  {
    var dir := Dirname(templatePath);
    (if dir != [] then dir + "/" else "") + ".env"
  }

  /** The directory part is empty exactly when the path has no slash, and then
      the environment file is `.env`; otherwise it is the directory, a slash
      and `.env`, even when the directory is `/` itself. */
  lemma DotenvPathShape(p: string)
    ensures Dirname(p) == [] <==> forall i :: 0 <= i < |p| ==> p[i] != '/'
    ensures Dirname(p) == [] ==> DotenvPath(p) == ".env"
    ensures Dirname(p) != [] ==> DotenvPath(p) == Dirname(p) + "/.env"
    ensures Dirname(p) == p[..|Dirname(p)|]
  {
  }

  lemma {:induction false} HeadAfterSlash(a: string, b: string)
    requires a != [] && a[|a| - 1] == '/'
    requires forall i :: 0 <= i < |b| ==> b[i] != '/'
    ensures Head(a + b) == a
    decreases |b|
  {
    if b == [] {
      assert a + b == a;
    } else {
      assert (a + b)[..|a + b| - 1] == a + b[..|b| - 1];
      HeadAfterSlash(a, b[..|b| - 1]);
    }
  }

  /** The environment file is always named `.env`; the command line relies on
      this to refuse a template that is itself named `.env`. */
  lemma DotenvBasename(p: string)
    ensures Basename(DotenvPath(p)) == ".env"
  {
    var dir := Dirname(p);
    if dir != [] {
      BasenameAfterSlash(dir + "/", ".env");
    } else {
      assert Head(".env") == [];
    }
  }

  lemma BasenameAfterSlash(a: string, b: string)
    requires a != [] && a[|a| - 1] == '/'
    requires forall i :: 0 <= i < |b| ==> b[i] != '/'
    ensures Basename(a + b) == b
  {
    HeadAfterSlash(a, b);
    assert (a + b)[|a|..] == b;
  }

  /** The test suite's example, a root-level template and a bare name. */
  lemma DotenvPathExamples()
    ensures DotenvPath("/path/to/file") == "/path/to/.env"
    ensures DotenvPath("/file") == "//.env"
    ensures DotenvPath("file") == ".env"
  {
    HeadAfterSlash("/path/to/", "file");
    assert "/path/to/" + "file" == "/path/to/file";
    assert !AllSlashes("/path/to/") by { assert "/path/to/"[1] == 'p'; }
    assert StripSlashes("/path/to/") == "/path/to";
    HeadAfterSlash("/", "file");
    assert "/" + "file" == "/file";
  }
}
