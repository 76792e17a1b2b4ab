/** lib/util.js: `formatPath`, with the POSIX `path.join` and
    `path.normalize` of Node.js that it calls. The working directory is a
    parameter. */
module Util {
  import opened Basics
  import opened Strings

  /** `path.isAbsolute` (POSIX). */
  predicate IsAbsolute(p: string) {
    |p| > 0 && p[0] == '/'
  }

  /** One segment of the scan in `path.normalize`: empty and `.` segments
      vanish, `..` removes the previous segment unless that is itself `..`,
      and is kept only when the path may climb above its start. */
  function Step(acc: seq<string>, seg: string, aboveRoot: bool): seq<string> {
    if seg == "" || seg == "." then acc
    else if seg == ".." then
      if |acc| > 0 && acc[|acc| - 1] != ".." then acc[..|acc| - 1]
      else if aboveRoot then acc + [".."]
      else acc
    else acc + [seg]
  }

  function Resolve(acc: seq<string>, segs: seq<string>, aboveRoot: bool): seq<string>
    decreases |segs|
  {
    if |segs| == 0 then acc else Resolve(Step(acc, segs[0], aboveRoot), segs[1..], aboveRoot)
  }

  /** A segment list in resolved form: no empty or `.` segment, no slash, and
      `..` only as a leading run of a path that may climb above its start. */
  predicate Resolved(segs: seq<string>, aboveRoot: bool) {
    forall i :: 0 <= i < |segs| ==>
      segs[i] != "" && segs[i] != "." && '/' !in segs[i] &&
      (segs[i] == ".." ==> aboveRoot && forall j :: 0 <= j < i ==> segs[j] == "..")
  }

  /** Puts the resolved segments back together with the leading and
      trailing slash of the input. */
  function Assemble(segs: seq<string>, abs: bool, trailing: bool): string {
    var body := Join(segs, '/');
    if body == "" then (if abs then "/" else if trailing then "./" else ".")
    else (if abs then "/" else "") + body + (if trailing then "/" else "")
  }

  /** `path.normalize` (POSIX). */
  function Normalize(path: string): (r: string)
    ensures r != ""
    ensures IsAbsolute(path) ==> IsAbsolute(r)
    ensures |path| > 0 && path[|path| - 1] == '/' ==> r[|r| - 1] == '/'
  {
    if path == "" then "."
    else
      var abs := path[0] == '/';
      var trailing := path[|path| - 1] == '/';
      Assemble(Resolve([], Split(path, '/'), !abs), abs, trailing)
  }

  /** `path.join(a, b)`: empty arguments are skipped, the rest joined with a
      slash and normalised. */
  function JoinPath(a: string, b: string): (r: string)
    ensures r != ""
    ensures IsAbsolute(a) ==> IsAbsolute(r)
    ensures a == "" && b == "" ==> r == "."
  {
    var joined := if a == "" then b else if b == "" then a else a + "/" + b;
    if joined == "" then "." else Normalize(joined)
  }

  /** `util.formatPath(p)` run in the working directory `cwd`. */
  function FormatPath(cwd: string, p: Option<string>): (r: Option<string>)
    ensures r.None? <==> p.None? || p.value == ""
    ensures p.Some? && IsAbsolute(p.value) ==> r == p
    ensures p.Some? && p.value != "" && IsAbsolute(cwd) ==> IsAbsolute(r.value)
  {
    if p.None? || p.value == "" then None
    else if IsAbsolute(p.value) then p
    else Some(Normalize(JoinPath(cwd, p.value)))
  }

  /** The segments between the leading slash and an optional trailing slash
      contain no empty, `.` or `..` segment. */
  predicate CanonicalAbsolute(r: string) {
    IsAbsolute(r) &&
    var pieces := Split(r, '/')[1..];
    var inner := if |pieces| > 0 && pieces[|pieces| - 1] == "" then pieces[..|pieces| - 1] else pieces;
    forall i :: 0 <= i < |inner| ==> inner[i] != "" && inner[i] != "." && inner[i] != ".."
  }

  lemma StepResolved(acc: seq<string>, seg: string, aboveRoot: bool)
    requires Resolved(acc, aboveRoot) && '/' !in seg
    ensures Resolved(Step(acc, seg, aboveRoot), aboveRoot)
  {
    if seg == ".." && !(|acc| > 0 && acc[|acc| - 1] != "..") && aboveRoot {
      var r := acc + [".."];
      forall i | 0 <= i < |r| && r[i] == ".."
        ensures forall j :: 0 <= j < i ==> r[j] == ".."
      {
        if i == |acc| && |acc| > 0 {
          assert acc[|acc| - 1] == "..";
        }
      }
    }
  }

  lemma {:induction false} ResolveResolved(acc: seq<string>, segs: seq<string>, aboveRoot: bool)
    requires Resolved(acc, aboveRoot) && NoneContains(segs, '/')
    ensures Resolved(Resolve(acc, segs, aboveRoot), aboveRoot)
    decreases |segs|
  {
    if |segs| > 0 {
      StepResolved(acc, segs[0], aboveRoot);
      ResolveResolved(Step(acc, segs[0], aboveRoot), segs[1..], aboveRoot);
    }
  }

  /** Resolving already resolved segments changes nothing. */
  lemma {:induction false} ResolveFixed(acc: seq<string>, segs: seq<string>, aboveRoot: bool)
    requires Resolved(acc + segs, aboveRoot)
    ensures Resolve(acc, segs, aboveRoot) == acc + segs
    decreases |segs|
  {
    if |segs| > 0 {
      var all := acc + segs;
      assert all[|acc|] == segs[0];
      if segs[0] == ".." && |acc| > 0 {
        assert all[|acc| - 1] == acc[|acc| - 1];
      }
      assert Step(acc, segs[0], aboveRoot) == acc + [segs[0]];
      assert (acc + [segs[0]]) + segs[1..] == all;
      ResolveFixed(acc + [segs[0]], segs[1..], aboveRoot);
    }
  }

  lemma {:induction false} ResolveConcat(acc: seq<string>, a: seq<string>, b: seq<string>, aboveRoot: bool)
    ensures Resolve(acc, a + b, aboveRoot) == Resolve(Resolve(acc, a, aboveRoot), b, aboveRoot)
    decreases |a|
  {
    if |a| > 0 {
      assert (a + b)[0] == a[0] && (a + b)[1..] == a[1..] + b;
      ResolveConcat(Step(acc, a[0], aboveRoot), a[1..], b, aboveRoot);
    } else {
      assert a + b == b;
    }
  }

  /** The joined body of a non-empty resolved list: non-empty, and its
      first and last characters are not slashes. */
  lemma JoinedBody(segs: seq<string>, aboveRoot: bool)
    requires |segs| > 0 && Resolved(segs, aboveRoot)
    ensures var body := Join(segs, '/'); |body| > 0 && body[0] != '/' && body[|body| - 1] != '/'
  {
    var body := Join(segs, '/');
    var n := |segs|;
    if n == 1 {
      assert body == segs[0];
    } else {
      assert body == segs[0] + "/" + Join(segs[1..], '/');
      assert segs == segs[..n - 1] + [segs[n - 1]];
      JoinAppend(segs[..n - 1], segs[n - 1], '/');
    }
    assert body[0] == segs[0][0] && body[|body| - 1] == segs[n - 1][|segs[n - 1]| - 1];
    assert segs[0][0] in segs[0] && segs[n - 1][|segs[n - 1]| - 1] in segs[n - 1];
  }

  /** The pieces of an assembled path, joined, give the path back. */
  lemma JoinAssembled(segs: seq<string>, abs: bool, trailing: bool)
    requires Join(segs, '/') != ""
    ensures var pre: seq<string> := if abs then [""] else [];
      var post: seq<string> := if trailing then [""] else [];
      Join(pre + segs + post, '/') == Assemble(segs, abs, trailing)
  {
    var body := Join(segs, '/');
    var pre: seq<string> := if abs then [""] else [];
    var post: seq<string> := if trailing then [""] else [];
    var withPre := pre + segs;
    assert Join(withPre, '/') == (if abs then "/" else "") + body by {
      if abs {
        assert withPre[1..] == segs;
        assert |segs| > 0;
        assert Join(withPre, '/') == "" + "/" + body;
      } else {
        assert withPre == segs;
      }
    }
    if trailing {
      JoinAppend(withPre, "", '/');
      assert pre + segs + post == withPre + [""];
    } else {
      assert pre + segs + post == withPre;
    }
  }

  /** What `split` sees in an assembled path, and where its slashes are. */
  lemma SplitAssembled(segs: seq<string>, abs: bool, trailing: bool, aboveRoot: bool)
    requires |segs| > 0 && Resolved(segs, aboveRoot)
    ensures var r := Assemble(segs, abs, trailing);
      && |r| > 0
      && (r[0] == '/' <==> abs)
      && (r[|r| - 1] == '/' <==> trailing)
      && Split(r, '/') == (if abs then [""] else []) + segs + (if trailing then [""] else [])
  {
    JoinedBody(segs, aboveRoot);
    var pre: seq<string> := if abs then [""] else [];
    var post: seq<string> := if trailing then [""] else [];
    var pieces := pre + segs + post;
    JoinAssembled(segs, abs, trailing);
    assert NoneContains(pieces, '/') by {
      forall i | 0 <= i < |pieces| ensures '/' !in pieces[i] {
        if i < |pre| || i >= |pre| + |segs| {
          assert pieces[i] == "";
        } else {
          assert pieces[i] == segs[i - |pre|];
        }
      }
    }
    SplitJoin(pieces, '/');
  }

  /** The three paths with no segment left normalise to themselves. */
  lemma NormalizeBare()
    ensures Normalize("/") == "/" && Normalize("./") == "./" && Normalize(".") == "."
  {
    assert Split("/", '/') == ["", ""];
    SplitPrefix(".", "", '/');
    SplitPrefix(".", "/", '/');
    assert "." + "" == "." && "." + "/" == "./";
    assert Split("./", '/') == [".", ""];
    assert Split(".", '/') == ["."];
  }

  /** Resolving the pieces of an assembled path gives the segments back. */
  lemma ResolveAssembled(segs: seq<string>, abs: bool, trailing: bool)
    requires Resolved(segs, !abs)
    ensures var pre: seq<string> := if abs then [""] else [];
      var post: seq<string> := if trailing then [""] else [];
      Resolve([], pre + segs + post, !abs) == segs
  {
    var pre: seq<string> := if abs then [""] else [];
    var post: seq<string> := if trailing then [""] else [];
    ResolveConcat([], pre, segs + post, !abs);
    assert pre + (segs + post) == pre + segs + post;
    assert Resolve([], pre, !abs) == [];
    ResolveConcat([], segs, post, !abs);
    ResolveFixed([], segs, !abs);
    assert [] + segs == segs;
    assert Resolve(segs, post, !abs) == segs;
  }

  /** An assembled path with segments normalises to itself. */
  lemma NormalizeAssembled(segs: seq<string>, abs: bool, trailing: bool)
    requires |segs| > 0 && Resolved(segs, !abs)
    ensures Normalize(Assemble(segs, abs, trailing)) == Assemble(segs, abs, trailing)
  {
    SplitAssembled(segs, abs, trailing, !abs);
    ResolveAssembled(segs, abs, trailing);
  }

  /** `path.normalize` is idempotent. */
  lemma NormalizeIdempotent(path: string)
    ensures Normalize(Normalize(path)) == Normalize(path)
  {
    if path != "" {
      var abs := path[0] == '/';
      var trailing := path[|path| - 1] == '/';
      var segs := Resolve([], Split(path, '/'), !abs);
      ResolveResolved([], Split(path, '/'), !abs);
      assert Normalize(path) == Assemble(segs, abs, trailing);
      if segs == [] {
        NormalizeBare();
      } else {
        NormalizeAssembled(segs, abs, trailing);
      }
    } else {
      NormalizeBare();
    }
  }

  /** An absolute assembled path is canonical. */
  lemma CanonicalAssembled(segs: seq<string>, trailing: bool)
    requires |segs| > 0 && Resolved(segs, false)
    ensures CanonicalAbsolute(Assemble(segs, true, trailing))
  {
    var r := Assemble(segs, true, trailing);
    SplitAssembled(segs, true, trailing, false);
    var post: seq<string> := if trailing then [""] else [];
    assert Split(r, '/')[1..] == segs + post;
    if trailing {
      assert (segs + post)[..|segs|] == segs;
    } else {
      assert segs + post == segs;
      assert segs[|segs| - 1] != "";
    }
  }

  /** An absolute path normalises to canonical form. */
  lemma NormalizeCanonical(path: string)
    requires IsAbsolute(path)
    ensures CanonicalAbsolute(Normalize(path))
  {
    var trailing := path[|path| - 1] == '/';
    var segs := Resolve([], Split(path, '/'), false);
    ResolveResolved([], Split(path, '/'), false);
    assert Normalize(path) == Assemble(segs, true, trailing);
    if segs == [] {
      assert Split("/", '/') == ["", ""];
    } else {
      CanonicalAssembled(segs, trailing);
    }
  }

  /** test/util-spec.js: a relative path comes back as `path.join(cwd, p)`. */
  lemma FormatPathRelative(cwd: string, p: string)
    requires p != "" && !IsAbsolute(p)
    ensures FormatPath(cwd, Some(p)) == Some(JoinPath(cwd, p))
  {
    var joined := if cwd == "" then p else cwd + "/" + p;
    NormalizeIdempotent(joined);
  }

  /** With an absolute working directory, a relative path comes back
      absolute and free of `.`, `..` and empty segments. */
  lemma FormatPathCanonical(cwd: string, p: string)
    requires IsAbsolute(cwd) && p != "" && !IsAbsolute(p)
    ensures FormatPath(cwd, Some(p)).Some?
    ensures CanonicalAbsolute(FormatPath(cwd, Some(p)).value)
  {
    var joined := cwd + "/" + p;
    assert IsAbsolute(joined);
    NormalizeIdempotent(joined);
    NormalizeCanonical(joined);
  }

  /** Formatting a formatted path changes nothing. */
  lemma FormatPathIdempotent(cwd: string, p: string)
    requires IsAbsolute(cwd) && p != ""
    ensures FormatPath(cwd, FormatPath(cwd, Some(p))) == FormatPath(cwd, Some(p))
  {
  }
}
