/** lib/SpecUtil.js: finding the OpenAPI operation of a request by path
    template, and stripping `readOnly` properties from a JSON body by the
    schema of that operation's body parameter. */
module SpecUtil {
  import opened Basics
  import opened Strings
  import opened Http

  // ---------------------------------------------------------------------
  // Path templates

  /** A compiled path: literal characters and `{…}` holes. */
  datatype Piece = Lit(c: char) | Hole

  /** `pathName.replace(/{.*?}/g, '[^/]*?')`: each `{` up to the first `}`
      after it becomes a hole; a `{` with no `}` after it stays literal. */
  function Compile(name: string): seq<Piece>
    decreases |name|
  {
    if |name| == 0 then []
    else if name[0] == '{' then
      match IndexOf(name[1..], '}')
      case Some(k) => [Hole] + Compile(name[k + 2..])
      case None => [Lit('{')] + Compile(name[1..])
    else [Lit(name[0])] + Compile(name[1..])
  }

  /** The whole of `s` matches the template: a literal matches itself, a
      hole any run of characters without `/`. */
  predicate Matches(t: seq<Piece>, s: string)
    decreases |t|
  {
    if |t| == 0 then |s| == 0
    else
      match t[0]
      case Lit(c) => |s| > 0 && s[0] == c && Matches(t[1..], s[1..])
      case Hole => exists j :: 0 <= j <= |s| && '/' !in s[..j] && Matches(t[1..], s[j..])
  }

  /** `regex.test(url)` for the pattern `template + '$'`: anchored at the
      end only, so some suffix of the URL matches the whole template. */
  predicate Test(t: seq<Piece>, url: string) {
    exists i :: 0 <= i <= |url| && Matches(t, url[i..])
  }

  function Holes(t: seq<Piece>): nat
    decreases |t|
  {
    if |t| == 0 then 0 else (if t[0].Hole? then 1 else 0) + Holes(t[1..])
  }

  /** The template with its holes filled by `fs`, in order. */
  function Fill(t: seq<Piece>, fs: seq<string>): string
    requires |fs| == Holes(t)
    decreases |t|
  {
    if |t| == 0 then ""
    else
      match t[0]
      case Lit(c) => [c] + Fill(t[1..], fs)
      case Hole => fs[0] + Fill(t[1..], fs[1..])
  }

  predicate Slashless(fs: seq<string>) {
    forall i :: 0 <= i < |fs| ==> '/' !in fs[i]
  }

  /** Filling the holes with `/`-free text gives a matching string ... */
  lemma {:induction false} FillMatches(t: seq<Piece>, fs: seq<string>)
    requires |fs| == Holes(t) && Slashless(fs)
    ensures Matches(t, Fill(t, fs))
    decreases |t|
  {
    if |t| > 0 {
      var s := Fill(t, fs);
      match t[0]
      case Lit(c) =>
        FillMatches(t[1..], fs);
        assert s[1..] == Fill(t[1..], fs);
      case Hole =>
        FillMatches(t[1..], fs[1..]);
        var j := |fs[0]|;
        assert s[..j] == fs[0] && s[j..] == Fill(t[1..], fs[1..]);
    }
  }

  /** `fs` fills the holes of `t` with `/`-free text to give `s`. */
  predicate FillsTo(t: seq<Piece>, fs: seq<string>, s: string) {
    |fs| == Holes(t) && Slashless(fs) && Fill(t, fs) == s
  }

  lemma FillsToHole(t: seq<Piece>, fs: seq<string>, v: string, s: string)
    requires |t| > 0 && t[0].Hole? && '/' !in v && FillsTo(t[1..], fs, s)
    ensures FillsTo(t, [v] + fs, v + s)
  {
    var gs := [v] + fs;
    assert gs[1..] == fs;
    assert Slashless(gs) by {
      forall i | 0 <= i < |gs| ensures '/' !in gs[i] {
        if i > 0 { assert gs[i] == fs[i - 1]; }
      }
    }
  }

  lemma FillsToLit(t: seq<Piece>, fs: seq<string>, c: char, s: string)
    requires |t| > 0 && t[0] == Lit(c) && FillsTo(t[1..], fs, s)
    ensures FillsTo(t, fs, [c] + s)
  {
  }

  /** ... and every matching string is such a filling, `fs` being the
      text of its holes. */
  lemma {:induction false} MatchesFilled(t: seq<Piece>, s: string) returns (fs: seq<string>)
    requires Matches(t, s)
    ensures FillsTo(t, fs, s)
    decreases |t|
  {
    if |t| == 0 {
      fs := [];
    } else {
      match t[0]
      case Lit(c) =>
        fs := MatchesFilled(t[1..], s[1..]);
        FillsToLit(t, fs, c, s[1..]);
        assert [c] + s[1..] == s;
      case Hole =>
        var j :| 0 <= j <= |s| && '/' !in s[..j] && Matches(t[1..], s[j..]);
        var gs := MatchesFilled(t[1..], s[j..]);
        FillsToHole(t, gs, s[..j], s[j..]);
        assert s[..j] + s[j..] == s;
        fs := [s[..j]] + gs;
    }
  }

  lemma {:induction false} HolesAppend(a: seq<Piece>, b: seq<Piece>)
    ensures Holes(a + b) == Holes(a) + Holes(b)
    decreases |a|
  {
    if |a| > 0 {
      assert (a + b)[1..] == a[1..] + b;
      HolesAppend(a[1..], b);
    } else {
      assert a + b == b;
    }
  }

  lemma {:induction false} FillAppend(a: seq<Piece>, b: seq<Piece>, fa: seq<string>, fb: seq<string>)
    requires |fa| == Holes(a) && |fb| == Holes(b)
    ensures Holes(a + b) == |fa + fb|
    ensures Fill(a + b, fa + fb) == Fill(a, fa) + Fill(b, fb)
    decreases |a|
  {
    HolesAppend(a, b);
    if |a| > 0 {
      assert (a + b)[1..] == a[1..] + b;
      HolesAppend(a[1..], b);
      match a[0]
      case Lit(c) =>
        FillAppend(a[1..], b, fa, fb);
      case Hole =>
        assert (fa + fb)[1..] == fa[1..] + fb;
        FillAppend(a[1..], b, fa[1..], fb);
    } else {
      assert a + b == b && fa + fb == fb;
    }
  }

  /** Text without `{` compiles to its own characters. */
  lemma {:induction false} CompileLiteral(name: string)
    requires '{' !in name
    ensures Holes(Compile(name)) == 0
    ensures Fill(Compile(name), []) == name
    decreases |name|
  {
    if |name| > 0 {
      CompileLiteral(name[1..]);
    }
  }

  /** Compiling a `{`-free prefix and the rest separately. */
  lemma {:induction false} CompileAppend(pre: string, rest: string)
    requires '{' !in pre
    ensures Compile(pre + rest) == Compile(pre) + Compile(rest)
    decreases |pre|
  {
    if |pre| > 0 {
      assert (pre + rest)[0] == pre[0];
      assert (pre + rest)[1..] == pre[1..] + rest;
      CompileAppend(pre[1..], rest);
    } else {
      assert pre + rest == rest;
    }
  }

  lemma CompileHole(x: string, rest: string)
    requires '}' !in x
    ensures Compile("{" + x + "}" + rest) == [Hole] + Compile(rest)
  {
    var name := "{" + x + "}" + rest;
    assert name[1..] == x + "}" + rest;
    assert name[1..][..|x|] == x;
    IndexOfAt(name[1..], '}', |x|);
    assert name[|x| + 2..] == rest;
  }

  lemma CompileOneHole(pre: string, x: string, post: string)
    requires '{' !in pre && '}' !in x
    ensures Compile(pre + "{" + x + "}" + post) == Compile(pre) + ([Hole] + Compile(post))
  {
    var tail := "{" + x + "}" + post;
    assert pre + "{" + x + "}" + post == pre + tail;
    CompileAppend(pre, tail);
    CompileHole(x, post);
  }

  lemma FillOneHole(lp: seq<Piece>, lq: seq<Piece>, v: string)
    requires Holes(lp) == 0 && Holes(lq) == 0
    ensures Holes(lp + ([Hole] + lq)) == 1
    ensures Fill(lp + ([Hole] + lq), [v]) == Fill(lp, []) + v + Fill(lq, [])
  {
    HolesAppend([Hole], lq);
    HolesAppend(lp, [Hole] + lq);
    FillAppend([Hole], lq, [v], []);
    assert [v] + [] == [v];
    FillAppend(lp, [Hole] + lq, [], [v]);
    assert [] + [v] == [v];
  }

  /** `pre{x}post` compiles to one hole between two literals. */
  lemma OneHoleCompiled(pre: string, x: string, post: string)
    requires '{' !in pre && '}' !in x && '{' !in post
    ensures var t := Compile(pre + "{" + x + "}" + post);
      && Holes(t) == 1
      && forall v :: Fill(t, [v]) == pre + v + post
  {
    CompileOneHole(pre, x, post);
    CompileLiteral(pre);
    CompileLiteral(post);
    forall v ensures Holes(Compile(pre) + ([Hole] + Compile(post))) == 1
      && Fill(Compile(pre) + ([Hole] + Compile(post)), [v]) == pre + v + post
    {
      FillOneHole(Compile(pre), Compile(post), v);
    }
  }

  /** A template `pre{x}post`, with literal `pre` and `post`, matches
      exactly the strings `pre + v + post` with `v` free of `/`. */
  lemma OneHoleTemplate(pre: string, x: string, post: string, s: string)
    requires '{' !in pre && '}' !in x && '{' !in post
    ensures Matches(Compile(pre + "{" + x + "}" + post), s) <==> exists v :: '/' !in v && s == pre + v + post
  {
    var t := Compile(pre + "{" + x + "}" + post);
    OneHoleCompiled(pre, x, post);
    if Matches(t, s) {
      var fs := MatchesFilled(t, s);
      assert fs == [fs[0]];
      var v := fs[0];
      assert '/' !in v && s == pre + v + post;
    }
    forall v | '/' !in v && s == pre + v + post ensures Matches(t, s) {
      FillMatches(t, [v]);
    }
  }

  /** The pattern is anchored at the end only: any prefix may precede a
      match. */
  lemma TestAnchoredAtEnd(t: seq<Piece>, prefix: string, s: string)
    requires Matches(t, s)
    ensures Test(t, prefix + s)
  {
    assert (prefix + s)[|prefix|..] == s;
  }

  // ---------------------------------------------------------------------
  // The OpenAPI document, as far as the finders read it

  datatype SchemaRef = SchemaRef(ref: Option<string>)
  datatype Parameter = Parameter(location: Option<string>, schema: Option<SchemaRef>)
  datatype Operation = Operation(parameters: Option<seq<Parameter>>)
  /** A path item: its operations keyed by lower-case method name. */
  datatype PathItem = PathItem(operations: map<string, Operation>)
  datatype Property = Property(readOnly: bool, ref: Option<string>, items: Option<SchemaRef>)
  datatype Schema = Schema(properties: Option<map<string, Property>>)
  /** `paths` in insertion order (that of `Object.entries`). */
  datatype OpenApi = OpenApi(paths: seq<(string, PathItem)>, definitions: map<string, Schema>)

  datatype Matcher = Matcher(template: seq<Piece>, item: PathItem)

  /** `regexToPath`: one compiled template per path, in order. */
  function Compiled(paths: seq<(string, PathItem)>): seq<Matcher> {
    seq(|paths|, i requires 0 <= i < |paths| => Matcher(Compile(paths[i].0), paths[i].1))
  }

  /** The loop of `buildPathFinder` that fills `regexToPath`. */
  method BuildPathFinder(paths: seq<(string, PathItem)>) returns (finder: seq<Matcher>)
    ensures |finder| == |paths|
    ensures forall i :: 0 <= i < |paths| ==> finder[i] == Matcher(Compile(paths[i].0), paths[i].1)
    ensures finder == Compiled(paths)
  {
    finder := [];
    var i := 0;
    while i < |paths|
      invariant 0 <= i <= |paths|
      invariant finder == Compiled(paths[..i])
    {
      finder := finder + [Matcher(Compile(paths[i].0), paths[i].1)];
      i := i + 1;
      assert paths[..i][..i - 1] == paths[..i - 1];
    }
    assert paths[..i] == paths;
  }

  /** `url.split('?')[0]`. */
  function Sanitize(url: string): (r: string)
    ensures '?' !in r
  {
    Split(url, '?')[0]
  }

  /** The query string plays no part in finding a path. */
  lemma SanitizeDropsQuery(p: string, q: string)
    requires '?' !in p
    ensures Sanitize(p) == p
    ensures Sanitize(p + "?" + q) == p
  {
    SplitPrefix(p, "", '?');
    assert p + "" == p;
    assert p + "?" + q == p + ("?" + q);
    SplitPrefix(p, "?" + q, '?');
    assert ("?" + q)[1..] == q;
  }

  /** Index of the first matcher whose pattern tests true. */
  function FirstMatchIndex(finder: seq<Matcher>, url: string): (r: Option<nat>)
    ensures r.None? <==> forall i :: 0 <= i < |finder| ==> !Test(finder[i].template, url)
    ensures r.Some? ==> r.value < |finder| && Test(finder[r.value].template, url)
    ensures r.Some? ==> forall i :: 0 <= i < r.value ==> !Test(finder[i].template, url)
  {
    if |finder| == 0 then None
    else if Test(finder[0].template, url) then Some(0)
    else
      match FirstMatchIndex(finder[1..], url)
      case None => None
      case Some(i) => Some(i + 1)
  }

  function FirstMatch(finder: seq<Matcher>, url: string): Option<PathItem> {
    match FirstMatchIndex(finder, url)
    case None => None
    case Some(i) => Some(finder[i].item)
  }

  /** The function `buildPathFinder` returns: the first path, in order,
      whose pattern matches the URL without its query; none if none does. */
  method FindPath(finder: seq<Matcher>, url: string) returns (r: Option<PathItem>)
    ensures r == FirstMatch(finder, Sanitize(url))
    ensures r.None? <==> forall i :: 0 <= i < |finder| ==> !Test(finder[i].template, Sanitize(url))
    ensures r.Some? ==>
      exists i :: && 0 <= i < |finder| && Test(finder[i].template, Sanitize(url))
                  && r.value == finder[i].item
                  && forall j :: 0 <= j < i ==> !Test(finder[j].template, Sanitize(url))
  {
    var s := Split(url, '?')[0];
    var i := 0;
    while i < |finder|
      invariant 0 <= i <= |finder|
      invariant forall j :: 0 <= j < i ==> !Test(finder[j].template, s)
    {
      if Test(finder[i].template, s) {
        assert FirstMatchIndex(finder, s) == Some(i) by {
          var k := FirstMatchIndex(finder, s);
          assert k.Some?;
          assert !(k.value < i) && !(i < k.value);
        }
        return Some(finder[i].item);
      }
      i := i + 1;
    }
    return None;
  }

  /** `buildOperationFinder`: the operation under the lower-cased method
      of the path found, when the request has a method. */
  function OperationOf(spec: OpenApi, req: RequestState): Option<Operation> {
    match FirstMatch(Compiled(spec.paths), Sanitize(req.url))
    case None => None
    case Some(item) =>
      if req.httpMethod != "" && Lower(req.httpMethod) in item.operations then
        Some(item.operations[Lower(req.httpMethod)])
      else None
  }

  /** Adding a query string does not change the operation found. */
  lemma OperationIgnoresQuery(spec: OpenApi, req: RequestState, q: string)
    requires '?' !in req.url
    ensures OperationOf(spec, req.(url := req.url + "?" + q)) == OperationOf(spec, req)
  {
    SanitizeDropsQuery(req.url, q);
  }

  /** The method is looked up without regard to case, and a request
      without a method finds no operation. */
  lemma OperationMethodCase(spec: OpenApi, req: RequestState)
    ensures OperationOf(spec, req.(httpMethod := Upper(req.httpMethod))) == OperationOf(spec, req)
    ensures req.httpMethod == "" ==> OperationOf(spec, req).None?
  {
    LowerUpper(req.httpMethod);
    assert |Upper(req.httpMethod)| == |req.httpMethod|;
  }

  /** `_.find(parameters, {in: 'body'})`: the first body parameter. */
  function BodyParam(ps: seq<Parameter>): (r: Option<nat>)
    ensures r.None? <==> forall i :: 0 <= i < |ps| ==> ps[i].location != Some("body")
    ensures r.Some? ==> r.value < |ps| && ps[r.value].location == Some("body")
    ensures r.Some? ==> forall i :: 0 <= i < r.value ==> ps[i].location != Some("body")
  {
    if |ps| == 0 then None
    else if ps[0].location == Some("body") then Some(0)
    else
      match BodyParam(ps[1..])
      case None => None
      case Some(i) => Some(i + 1)
  }

  /** `spec.definitions[_.last(ref.split('/'))]`. */
  function Definition(spec: OpenApi, ref: string): Option<Schema> {
    var pieces := Split(ref, '/');
    var name := pieces[|pieces| - 1];
    if name in spec.definitions then Some(spec.definitions[name]) else None
  }

  /** The definition named by a reference is the one after its last `/`. */
  lemma DefinitionNamed(spec: OpenApi, prefix: string, name: string)
    requires '/' !in name
    ensures Definition(spec, prefix + "/" + name)
      == if name in spec.definitions then Some(spec.definitions[name]) else None
  {
    LastPiece(prefix, name, '/');
  }

  /** `getModelForReq` once the operation finder has answered; each
      missing link of the chain throws. */
  function ModelOfOperation(spec: OpenApi, op: Option<Operation>): Result<Option<Schema>> {
    match op
    case None => Thrown("TypeError: Cannot read properties of undefined (reading 'parameters')")
    case Some(o) =>
      var found := if o.parameters.Some? then BodyParam(o.parameters.value) else None;
      if found.None? then Thrown("TypeError: Cannot read properties of undefined (reading 'schema')")
      else
        var p := o.parameters.value[found.value];
        if p.schema.None? then Thrown("TypeError: Cannot read properties of undefined (reading '$ref')")
        else if p.schema.value.ref.None? then Thrown("TypeError: Cannot read properties of undefined (reading 'split')")
        else Ok(Definition(spec, p.schema.value.ref.value))
  }

  /** `getModelForReq(req)`. */
  function ModelForReq(spec: OpenApi, req: Option<RequestState>): Result<Option<Schema>> {
    if req.None? then Thrown(NoRequest)
    else ModelOfOperation(spec, OperationOf(spec, req.value))
  }

  /** Once the finder has answered, the model is found exactly when the
      operation's first body parameter has a schema reference; it is the
      definition that reference names. */
  lemma ModelOfOperationSpec(spec: OpenApi, op: Option<Operation>)
    ensures ModelOfOperation(spec, op).Ok? <==>
      (&& op.Some? && op.value.parameters.Some?
       && BodyParam(op.value.parameters.value).Some?
       && var p := op.value.parameters.value[BodyParam(op.value.parameters.value).value];
       p.schema.Some? && p.schema.value.ref.Some?)
    ensures ModelOfOperation(spec, op).Ok? ==>
      var ps := op.value.parameters.value;
      var p := ps[BodyParam(ps).value];
      && p.location == Some("body")
      && (forall i :: 0 <= i < BodyParam(ps).value ==> ps[i].location != Some("body"))
      && ModelOfOperation(spec, op).value == Definition(spec, p.schema.value.ref.value)
  {
  }

  /** The model is found exactly when the request reaches an operation
      whose first body parameter has a schema reference; without a request
      `getModelForReq` throws. */
  lemma ModelForReqSpec(spec: OpenApi, req: RequestState)
    ensures var r := ModelForReq(spec, Some(req));
      var op := OperationOf(spec, req);
      r.Ok? <==> (&& op.Some? && op.value.parameters.Some?
                 && BodyParam(op.value.parameters.value).Some?
                 && var p := op.value.parameters.value[BodyParam(op.value.parameters.value).value];
                 p.schema.Some? && p.schema.value.ref.Some?)
    ensures ModelForReq(spec, Some(req)).Ok? ==>
      var ps := OperationOf(spec, req).value.parameters.value;
      var p := ps[BodyParam(ps).value];
      && p.location == Some("body")
      && (forall i :: 0 <= i < BodyParam(ps).value ==> ps[i].location != Some("body"))
      && ModelForReq(spec, Some(req)).value == Definition(spec, p.schema.value.ref.value)
    ensures ModelForReq(spec, None).Thrown?
  {
    ModelOfOperationSpec(spec, OperationOf(spec, req));
  }

  // ---------------------------------------------------------------------
  // JSON values and objects

  /** A parsed JSON request body; objects keep their key order. */
  datatype Json = Undefined | Null | Bool(b: bool) | Num(n: int) | Str(s: string)
                | Arr(items: seq<Json>) | Obj(fields: seq<(string, Json)>)

  /** `!body`. */
  predicate Falsy(j: Json) {
    j.Undefined? || j.Null? || j == Bool(false) || j == Num(0) || j == Str("")
  }

  /** `_.isObject(body)`. */
  predicate IsObject(j: Json) {
    j.Arr? || j.Obj?
  }

  /** Where key `k` sits in an object. */
  function FindKey(fields: seq<(string, Json)>, k: string): (r: Option<nat>)
    ensures r.None? <==> forall i :: 0 <= i < |fields| ==> fields[i].0 != k
    ensures r.Some? ==> r.value < |fields| && fields[r.value].0 == k
    ensures r.Some? ==> forall i :: 0 <= i < r.value ==> fields[i].0 != k
  {
    if |fields| == 0 then None
    else if fields[0].0 == k then Some(0)
    else
      match FindKey(fields[1..], k)
      case None => None
      case Some(i) => Some(i + 1)
  }

  predicate HasKey(fields: seq<(string, Json)>, k: string) {
    FindKey(fields, k).Some?
  }

  /** `obj[k]`: `undefined` when absent. */
  function ValueOf(fields: seq<(string, Json)>, k: string): Json {
    match FindKey(fields, k)
    case None => Undefined
    case Some(i) => fields[i].1
  }

  /** `obj[k] = v`: replaced in place when present, else appended. */
  function Put(fields: seq<(string, Json)>, k: string, v: Json): seq<(string, Json)> {
    match FindKey(fields, k)
    case None => fields + [(k, v)]
    case Some(i) => fields[i := (k, v)]
  }

  lemma {:induction false} FindKeySameKeys(a: seq<(string, Json)>, b: seq<(string, Json)>, k: string)
    requires |a| == |b| && forall i :: 0 <= i < |a| ==> a[i].0 == b[i].0
    ensures FindKey(a, k) == FindKey(b, k)
  {
    var x := FindKey(a, k);
    var y := FindKey(b, k);
    if x.Some? && y.Some? {
      assert !(x.value < y.value) && !(y.value < x.value);
    }
  }

  /** After `obj[k] = v`: `k` holds `v`, every other key is as before. */
  lemma PutSpec(fields: seq<(string, Json)>, k: string, v: Json)
    ensures HasKey(Put(fields, k, v), k) && ValueOf(Put(fields, k, v), k) == v
    ensures forall k' :: k' != k ==>
      HasKey(Put(fields, k, v), k') == HasKey(fields, k') && ValueOf(Put(fields, k, v), k') == ValueOf(fields, k')
  {
    var r := Put(fields, k, v);
    match FindKey(fields, k)
    case None =>
      assert r[|fields|].0 == k;
      forall k' | k' != k ensures FindKey(r, k') == FindKey(fields, k') {
        var x := FindKey(fields, k');
        var y := FindKey(r, k');
        if x.Some? {
          assert r[x.value] == fields[x.value];
          assert y.Some?;
          assert !(x.value < y.value) && !(y.value < x.value);
        } else {
          assert forall i :: 0 <= i < |r| ==> r[i].0 != k' by {
            forall i | 0 <= i < |r| ensures r[i].0 != k' {
              if i < |fields| { assert r[i] == fields[i]; }
            }
          }
        }
      }
    case Some(i) =>
      forall k' ensures FindKey(r, k') == FindKey(fields, k') {
        FindKeySameKeys(r, fields, k');
      }
  }

  // ---------------------------------------------------------------------
  // removeReadOnlyProps as a function

  /** The properties consulted for an object body, `map[]` when the model
      or its `properties` is missing. */
  function PropsOf(m: Option<Schema>): map<string, Property> {
    if m.Some? && m.value.properties.Some? then m.value.properties.value else map[]
  }

  predicate Truthy(v: Option<string>) {
    v.Some? && v.value != ""
  }

  const NoRequest := "TypeError: Cannot read properties of undefined (reading 'url')"

  /** The model `removeReadOnlyProps` uses: the one given, else the
      request's. */
  function EffectiveModel(spec: OpenApi, req: Option<RequestState>, model: Option<Schema>): Result<Option<Schema>> {
    if model.Some? then Ok(model) else ModelForReq(spec, req)
  }

  /** `removeReadOnlyProps({req, model, body})`; the object's keys are
      iterated in the order `keysOf` gives. */
  function Clean(spec: OpenApi, keysOf: Json -> seq<string>, req: Option<RequestState>, model: Option<Schema>,
                 body: Json): Result<Json>
  {
    if Falsy(body) then Ok(Undefined)
    else if !IsObject(body) then Ok(body)
    else
      var m :- EffectiveModel(spec, req, model);
      Strip(spec, keysOf, m, body)
  }

  /** The recursive calls `removeReadOnlyProps({model, body})`, which pass
      no request: a missing model throws inside `getModelForReq`. */
  function Nested(spec: OpenApi, keysOf: Json -> seq<string>, model: Option<Schema>, body: Json): Result<Json>
    decreases body, 3
  {
    if Falsy(body) then Ok(Undefined)
    else if !IsObject(body) then Ok(body)
    else if model.None? then Thrown(NoRequest)
    else Strip(spec, keysOf, model, body)
  }

  /** Lines after the model is settled: map an array, filter an object. */
  function Strip(spec: OpenApi, keysOf: Json -> seq<string>, m: Option<Schema>, body: Json): Result<Json>
    requires IsObject(body)
    decreases body, 2
  {
    if body.Arr? then
      var cs :- CleanItems(spec, keysOf, m, body, 0);
      Ok(Arr(cs))
    else
      var fs :- CleanFields(spec, keysOf, m, body, keysOf(body), 0, []);
      Ok(Obj(fs))
  }

  /** `body.map(item => removeReadOnlyProps({model, body: item}))` from
      element `i` on. */
  function CleanItems(spec: OpenApi, keysOf: Json -> seq<string>, m: Option<Schema>, arr: Json, i: nat)
    : Result<seq<Json>>
    requires arr.Arr? && i <= |arr.items|
    decreases arr, 1, |arr.items| - i
  {
    if i == |arr.items| then Ok([])
    else
      var c :- Nested(spec, keysOf, m, arr.items[i]);
      var rest :- CleanItems(spec, keysOf, m, arr, i + 1);
      Ok([c] + rest)
  }

  /** The loop over the iterated keys from position `j` on, `acc` being
      `newBody` so far. */
  function CleanFields(spec: OpenApi, keysOf: Json -> seq<string>, m: Option<Schema>, body: Json,
                       keys: seq<string>, j: nat, acc: seq<(string, Json)>): Result<seq<(string, Json)>>
    requires body.Obj? && j <= |keys|
    decreases body, 1, |keys| - j
  {
    if j == |keys| then Ok(acc)
    else if m.None? then Thrown("TypeError: Cannot read properties of undefined (reading 'properties')")
    else if m.value.properties.None? then Thrown("TypeError: Cannot read properties of undefined (reading '" + keys[j] + "')")
    else
      var o :- Outcome(spec, keysOf, m.value.properties.value, body, keys[j]);
      CleanFields(spec, keysOf, m, body, keys, j + 1, if o.Some? then Put(acc, keys[j], o.value) else acc)
  }

  /** What one iterated key contributes to `newBody`: nothing for a
      read-only property, otherwise the value assigned to it. */
  function Outcome(spec: OpenApi, keysOf: Json -> seq<string>, props: map<string, Property>, body: Json,
                   k: string): Result<Option<Json>>
    requires body.Obj?
    decreases body, 0
  {
    if k !in props then Ok(Some(ValueOf(body.fields, k)))
    else
      var prop := props[k];
      if prop.readOnly then Ok(None)
      else if Truthy(prop.ref) then
        match FindKey(body.fields, k)
        case None => Ok(Some(Undefined))
        case Some(i) =>
          var c :- Nested(spec, keysOf, Definition(spec, prop.ref.value), body.fields[i].1);
          Ok(Some(c))
      else if prop.items.Some? && Truthy(prop.items.value.ref) then
        match FindKey(body.fields, k)
        case None => Thrown("TypeError: Cannot read properties of undefined (reading 'map')")
        case Some(i) =>
          var v := body.fields[i].1;
          if v.Arr? then
            var cs :- CleanItems(spec, keysOf, Definition(spec, prop.items.value.ref.value), v, 0);
            Ok(Some(Arr(cs)))
          else Thrown("TypeError: body[propName].map is not a function")
      else Ok(Some(ValueOf(body.fields, k)))
  }

  /** A recursive call is the function itself with no request. */
  lemma NestedIsClean(spec: OpenApi, keysOf: Json -> seq<string>, model: Option<Schema>, body: Json)
    ensures Nested(spec, keysOf, model, body) == Clean(spec, keysOf, None, model, body)
  {
  }

  /** Scalars: a falsy body becomes `undefined`, any other non-object is
      returned as it is. */
  lemma CleanScalar(spec: OpenApi, keysOf: Json -> seq<string>, req: Option<RequestState>, model: Option<Schema>,
                    body: Json)
    requires !IsObject(body)
    ensures Clean(spec, keysOf, req, model, body) == if Falsy(body) then Ok(Undefined) else Ok(body)
  {
  }

  /** The element-wise map keeps the length and cleans each element with
      the same model. */
  lemma {:induction false} CleanItemsSpec(spec: OpenApi, keysOf: Json -> seq<string>, m: Option<Schema>, arr: Json,
                                          i: nat, cs: seq<Json>)
    requires arr.Arr? && i <= |arr.items|
    requires CleanItems(spec, keysOf, m, arr, i) == Ok(cs)
    ensures |cs| == |arr.items| - i
    ensures forall n :: 0 <= n < |cs| ==> Nested(spec, keysOf, m, arr.items[i + n]) == Ok(cs[n])
    decreases |arr.items| - i
  {
    if i < |arr.items| {
      var rest := CleanItems(spec, keysOf, m, arr, i + 1).value;
      assert Nested(spec, keysOf, m, arr.items[i]) == Ok(cs[0]);
      assert cs == [cs[0]] + rest;
      CleanItemsSpec(spec, keysOf, m, arr, i + 1, rest);
      forall n | 0 <= n < |cs| ensures Nested(spec, keysOf, m, arr.items[i + n]) == Ok(cs[n]) {
        if n > 0 {
          assert cs[n] == rest[n - 1];
          assert arr.items[i + n] == arr.items[(i + 1) + (n - 1)];
        }
      }
    }
  }

  /** The whole map, stated with `Clean` on each element. */
  lemma CleanItemsClean(spec: OpenApi, keysOf: Json -> seq<string>, m: Option<Schema>, arr: Json, cs: seq<Json>)
    requires arr.Arr? && CleanItems(spec, keysOf, m, arr, 0) == Ok(cs)
    ensures |cs| == |arr.items|
    ensures forall n :: 0 <= n < |arr.items| ==> Clean(spec, keysOf, None, m, arr.items[n]) == Ok(cs[n])
  {
    CleanItemsSpec(spec, keysOf, m, arr, 0, cs);
    forall n | 0 <= n < |arr.items| ensures Clean(spec, keysOf, None, m, arr.items[n]) == Ok(cs[n]) {
      NestedIsClean(spec, keysOf, m, arr.items[n]);
      assert arr.items[0 + n] == arr.items[n];
    }
  }

  /** The map throws exactly when cleaning some element throws. */
  lemma {:induction false} CleanItemsOk(spec: OpenApi, keysOf: Json -> seq<string>, m: Option<Schema>, arr: Json,
                                        i: nat)
    requires arr.Arr? && i <= |arr.items|
    ensures (forall n :: i <= n < |arr.items| ==> Nested(spec, keysOf, m, arr.items[n]).Ok?)
      <==> CleanItems(spec, keysOf, m, arr, i).Ok?
    decreases |arr.items| - i
  {
    if i < |arr.items| {
      CleanItemsOk(spec, keysOf, m, arr, i + 1);
    }
  }

  /** An array body becomes an array of the same length whose elements
      are the cleaned elements, with the same model and no request. */
  lemma CleanArray(spec: OpenApi, keysOf: Json -> seq<string>, req: Option<RequestState>, model: Option<Schema>,
                   body: Json, m: Option<Schema>, r: Json)
    requires body.Arr? && EffectiveModel(spec, req, model) == Ok(m)
    requires Clean(spec, keysOf, req, model, body) == Ok(r)
    ensures r.Arr? && |r.items| == |body.items|
    ensures forall n :: 0 <= n < |body.items| ==> Clean(spec, keysOf, None, m, body.items[n]) == Ok(r.items[n])
  {
    if body.items == [] {
      assert CleanItems(spec, keysOf, m, body, 0) == Ok([]);
    } else {
      var cs := CleanItems(spec, keysOf, m, body, 0).value;
      CleanItemsSpec(spec, keysOf, m, body, 0, cs);
      forall n | 0 <= n < |body.items| ensures Clean(spec, keysOf, None, m, body.items[n]) == Ok(r.items[n]) {
        NestedIsClean(spec, keysOf, m, body.items[n]);
        assert body.items[0 + n] == body.items[n];
      }
    }
  }

  /** The object loop, from position `j` on: it throws only with a
      model lacking `properties`, no key outside `acc` and the remaining
      keys appears, and no read-only key is added. */
  lemma {:induction false} CleanFieldsKeys(spec: OpenApi, keysOf: Json -> seq<string>, m: Option<Schema>,
                                           body: Json, keys: seq<string>, j: nat, acc: seq<(string, Json)>,
                                           fs: seq<(string, Json)>)
    requires body.Obj? && j <= |keys|
    requires CleanFields(spec, keysOf, m, body, keys, j, acc) == Ok(fs)
    ensures j < |keys| ==> m.Some? && m.value.properties.Some?
    ensures forall k :: HasKey(fs, k) ==> HasKey(acc, k) || k in keys[j..]
    ensures forall k :: HasKey(fs, k) && k in PropsOf(m) && PropsOf(m)[k].readOnly ==> HasKey(acc, k)
    decreases |keys| - j
  {
    if j < |keys| {
      var props := PropsOf(m);
      var k0 := keys[j];
      var o := Outcome(spec, keysOf, props, body, k0).value;
      var acc' := if o.Some? then Put(acc, k0, o.value) else acc;
      assert CleanFields(spec, keysOf, m, body, keys, j + 1, acc') == Ok(fs);
      CleanFieldsKeys(spec, keysOf, m, body, keys, j + 1, acc', fs);
      assert keys[j..] == [k0] + keys[j + 1..];
      if o.Some? {
        PutSpec(acc, k0, o.value);
      }
      forall k | HasKey(fs, k) && k in props && props[k].readOnly ensures HasKey(acc, k) {
        if k == k0 {
          assert o.None?;
        }
      }
    }
  }

  /** ... every remaining key ends holding its own outcome, and keys of
      `acc` not iterated again keep their values. */
  lemma {:induction false} CleanFieldsValues(spec: OpenApi, keysOf: Json -> seq<string>, m: Option<Schema>,
                                             body: Json, keys: seq<string>, j: nat, acc: seq<(string, Json)>,
                                             fs: seq<(string, Json)>)
    requires body.Obj? && j <= |keys|
    requires CleanFields(spec, keysOf, m, body, keys, j, acc) == Ok(fs)
    ensures forall k :: k in keys[j..] ==>
      && Outcome(spec, keysOf, PropsOf(m), body, k).Ok?
      && (Outcome(spec, keysOf, PropsOf(m), body, k).value.Some? ==>
            HasKey(fs, k) && ValueOf(fs, k) == Outcome(spec, keysOf, PropsOf(m), body, k).value.value)
    ensures forall k :: k !in keys[j..] && HasKey(acc, k) ==> HasKey(fs, k) && ValueOf(fs, k) == ValueOf(acc, k)
    decreases |keys| - j
  {
    if j < |keys| {
      var props := PropsOf(m);
      var k0 := keys[j];
      var o := Outcome(spec, keysOf, props, body, k0).value;
      var acc' := if o.Some? then Put(acc, k0, o.value) else acc;
      assert CleanFields(spec, keysOf, m, body, keys, j + 1, acc') == Ok(fs);
      CleanFieldsValues(spec, keysOf, m, body, keys, j + 1, acc', fs);
      assert keys[j..] == [k0] + keys[j + 1..];
      if o.Some? {
        PutSpec(acc, k0, o.value);
      }
    }
  }

  /** The object loop run over all of the iterated keys. */
  lemma CleanObjectFields(spec: OpenApi, keysOf: Json -> seq<string>, req: Option<RequestState>,
                          model: Option<Schema>, body: Json, m: Option<Schema>, r: Json)
    requires body.Obj? && EffectiveModel(spec, req, model) == Ok(m)
    requires Clean(spec, keysOf, req, model, body) == Ok(r)
    ensures r.Obj? && CleanFields(spec, keysOf, m, body, keysOf(body), 0, []) == Ok(r.fields)
  {
  }

  /** An object body becomes an object whose keys are among the iterated
      keys, which holds no read-only property, and in which every iterated
      key without a property keeps the body's value for it. */
  lemma CleanObject(spec: OpenApi, keysOf: Json -> seq<string>, req: Option<RequestState>, model: Option<Schema>,
                    body: Json, m: Option<Schema>, r: Json)
    requires body.Obj? && EffectiveModel(spec, req, model) == Ok(m)
    requires Clean(spec, keysOf, req, model, body) == Ok(r)
    ensures r.Obj?
    ensures forall k :: HasKey(r.fields, k) ==> k in keysOf(body)
    ensures forall k :: HasKey(r.fields, k) && k in PropsOf(m) ==> !PropsOf(m)[k].readOnly
    ensures forall k :: k in keysOf(body) && k !in PropsOf(m) ==>
      HasKey(r.fields, k) && ValueOf(r.fields, k) == ValueOf(body.fields, k)
  {
    CleanObjectFields(spec, keysOf, req, model, body, m, r);
    CleanFieldsKeys(spec, keysOf, m, body, keysOf(body), 0, [], r.fields);
    CleanFieldsValues(spec, keysOf, m, body, keysOf(body), 0, [], r.fields);
    assert keysOf(body)[0..] == keysOf(body);
  }

  /** A non-read-only property with a `$ref` is cleaned with the
      referenced definition; one with `items.$ref` is cleaned element by
      element, keeping its length. */
  lemma CleanReferences(spec: OpenApi, keysOf: Json -> seq<string>, req: Option<RequestState>, model: Option<Schema>,
                        body: Json, m: Option<Schema>, r: Json, k: string)
    requires body.Obj? && EffectiveModel(spec, req, model) == Ok(m)
    requires Clean(spec, keysOf, req, model, body) == Ok(r)
    requires k in keysOf(body) && k in PropsOf(m) && !PropsOf(m)[k].readOnly
    ensures r.Obj? && HasKey(r.fields, k)
    ensures var prop := PropsOf(m)[k];
      Truthy(prop.ref) ==>
        Clean(spec, keysOf, None, Definition(spec, prop.ref.value), ValueOf(body.fields, k)) == Ok(ValueOf(r.fields, k))
    ensures var prop := PropsOf(m)[k];
      !Truthy(prop.ref) && prop.items.Some? && Truthy(prop.items.value.ref) ==>
        && ValueOf(body.fields, k).Arr? && ValueOf(r.fields, k).Arr?
        && |ValueOf(r.fields, k).items| == |ValueOf(body.fields, k).items|
        && forall n :: 0 <= n < |ValueOf(body.fields, k).items| ==>
             Clean(spec, keysOf, None, Definition(spec, prop.items.value.ref.value), ValueOf(body.fields, k).items[n])
               == Ok(ValueOf(r.fields, k).items[n])
    ensures var prop := PropsOf(m)[k];
      !Truthy(prop.ref) && !(prop.items.Some? && Truthy(prop.items.value.ref)) ==>
        ValueOf(r.fields, k) == ValueOf(body.fields, k)
  {
    CleanObjectFields(spec, keysOf, req, model, body, m, r);
    CleanFieldsValues(spec, keysOf, m, body, keysOf(body), 0, [], r.fields);
    assert keysOf(body)[0..] == keysOf(body);
    var prop := PropsOf(m)[k];
    if Truthy(prop.ref) {
      NestedIsClean(spec, keysOf, Definition(spec, prop.ref.value), ValueOf(body.fields, k));
    } else if prop.items.Some? && Truthy(prop.items.value.ref) {
      var i := FindKey(body.fields, k).value;
      var v := body.fields[i].1;
      var cs := CleanItems(spec, keysOf, Definition(spec, prop.items.value.ref.value), v, 0).value;
      CleanItemsClean(spec, keysOf, Definition(spec, prop.items.value.ref.value), v, cs);
    }
  }

  // ---------------------------------------------------------------------
  // Which keys the object loop visits

  function Digit(d: nat): char
    requires d < 10
  {
    "0123456789"[d]
  }

  /** The decimal text of `n`. */
  function Decimal(n: nat): string
    decreases n
  {
    if n < 10 then [Digit(n)] else Decimal(n / 10) + [Digit(n % 10)]
  }

  /** `for (let propName in Object.keys(body))`: the index strings of the
      array of keys, not the keys. */
  function AsWrittenKeys(body: Json): seq<string> {
    if body.Obj? then seq(|body.fields|, i requires 0 <= i < |body.fields| => Decimal(i)) else []
  }

  /** The keys of the body, as `Object.keys(body)` lists them. */
  function OwnKeys(body: Json): seq<string> {
    if body.Obj? then seq(|body.fields|, i requires 0 <= i < |body.fields| => body.fields[i].0) else []
  }

  /** As written, a body `{"name": "x"}` against a schema with no
      property definitions loses its field: the loop reads key `"0"`, which the body
      does not have. Iterating the own keys keeps it. */
  lemma AsWrittenLosesFields()
    ensures var spec := OpenApi([], map[]);
      var schema := Some(Schema(Some(map[])));
      var body := Obj([("name", Str("x"))]);
      && Clean(spec, AsWrittenKeys, None, schema, body) == Ok(Obj([("0", Undefined)]))
      && Clean(spec, OwnKeys, None, schema, body) == Ok(Obj([("name", Str("x"))]))
  {
    var spec := OpenApi([], map[]);
    var schema := Some(Schema(Some(map[])));
    var body := Obj([("name", Str("x"))]);
    assert AsWrittenKeys(body) == ["0"];
    assert OwnKeys(body) == ["name"];
    assert FindKey(body.fields, "0") == None;
    assert FindKey(body.fields, "name") == Some(0);
    var m := schema;
    assert Outcome(spec, AsWrittenKeys, map[], body, "0") == Ok(Some(Undefined));
    assert Put([], "0", Undefined) == [("0", Undefined)];
    assert CleanFields(spec, AsWrittenKeys, m, body, ["0"], 1, [("0", Undefined)]) == Ok([("0", Undefined)]);
    assert CleanFields(spec, AsWrittenKeys, m, body, ["0"], 0, []) == Ok([("0", Undefined)]);
    assert Outcome(spec, OwnKeys, map[], body, "name") == Ok(Some(Str("x")));
    assert Put([], "name", Str("x")) == [("name", Str("x"))];
    assert CleanFields(spec, OwnKeys, m, body, ["name"], 1, [("name", Str("x"))]) == Ok([("name", Str("x"))]);
    assert CleanFields(spec, OwnKeys, m, body, ["name"], 0, []) == Ok([("name", Str("x"))]);
  }

  /** Iterating the own keys, every field of the body that has no
      property in the model is copied, every non-read-only property is
      kept, no read-only one is, and no key outside the body appears. */
  lemma OwnKeysKeepsFields(spec: OpenApi, req: Option<RequestState>, model: Option<Schema>, body: Json,
                           m: Option<Schema>, r: Json)
    requires body.Obj? && EffectiveModel(spec, req, model) == Ok(m)
    requires Clean(spec, OwnKeys, req, model, body) == Ok(r)
    ensures r.Obj?
    ensures forall k :: HasKey(r.fields, k) ==> HasKey(body.fields, k)
    ensures forall i :: 0 <= i < |body.fields| ==>
      var k := body.fields[i].0;
      && (k !in PropsOf(m) ==> HasKey(r.fields, k) && ValueOf(r.fields, k) == ValueOf(body.fields, k))
      && (k in PropsOf(m) && !PropsOf(m)[k].readOnly ==> HasKey(r.fields, k))
      && (k in PropsOf(m) && PropsOf(m)[k].readOnly ==> !HasKey(r.fields, k))
  {
    var props := PropsOf(m);
    CleanObject(spec, OwnKeys, req, model, body, m, r);
    var keys := OwnKeys(body);
    forall k | HasKey(r.fields, k) ensures HasKey(body.fields, k) {
      var i :| 0 <= i < |keys| && keys[i] == k;
    }
    forall i | 0 <= i < |body.fields|
      ensures var k := body.fields[i].0; k in props && !props[k].readOnly ==> HasKey(r.fields, k)
    {
      var k := body.fields[i].0;
      assert keys[i] == k;
      if k in props && !props[k].readOnly {
        CleanReferences(spec, OwnKeys, req, model, body, m, r, k);
      }
    }
    forall i | 0 <= i < |body.fields| ensures body.fields[i].0 in keys {
      assert keys[i] == body.fields[i].0;
    }
  }

  // ---------------------------------------------------------------------
  // The SpecUtil object

  class SpecUtil {
    const spec: OpenApi
    /** `regexToPath` of the operation finder. */
    const finder: seq<Matcher>

    predicate Valid() {
      finder == Compiled(spec.paths)
    }

    constructor (spec: OpenApi)
      ensures this.spec == spec && Valid()
    {
      var f := BuildPathFinder(spec.paths);
      this.spec := spec;
      finder := f;
    }

    /** `this.operationFinder(req)`. */
    method FindOperation(req: RequestState) returns (op: Option<Operation>)
      requires Valid()
      ensures op == OperationOf(spec, req)
    {
      var item := FindPath(finder, req.url);
      if item.Some? && req.httpMethod != "" && Lower(req.httpMethod) in item.value.operations {
        return Some(item.value.operations[Lower(req.httpMethod)]);
      }
      return None;
    }

    method GetModelForReq(req: Option<RequestState>) returns (r: Result<Option<Schema>>)
      requires Valid()
      ensures r == ModelForReq(spec, req)
    {
      if req.None? {
        return Thrown(NoRequest);
      }
      var op := FindOperation(req.value);
      return ModelOfOperation(spec, op);
    }

    method RemoveReadOnlyProps(req: Option<RequestState>, model: Option<Schema>, body: Json,
                               keysOf: Json -> seq<string>) returns (r: Result<Json>)
      requires Valid()
      ensures r == Clean(spec, keysOf, req, model, body)
      decreases body, 2
    {
      if Falsy(body) {
        return Ok(Undefined);
      }
      if !IsObject(body) {
        return Ok(body);
      }
      var m := model;
      if m.None? {
        var found := GetModelForReq(req);
        if found.Thrown? {
          return Thrown(found.reason);
        }
        m := found.value;
      }
      if body.Arr? {
        var cs := CleanEach(m, body, keysOf);
        if cs.Thrown? {
          return Thrown(cs.reason);
        }
        return Ok(Arr(cs.value));
      }
      var fs := CleanObjectLoop(m, body, keysOf);
      if fs.Thrown? {
        return Thrown(fs.reason);
      }
      return Ok(Obj(fs.value));
    }

    /** The `for` loop that builds `newBody`. */
    method CleanObjectLoop(m: Option<Schema>, body: Json, keysOf: Json -> seq<string>)
      returns (r: Result<seq<(string, Json)>>)
      requires Valid() && body.Obj?
      ensures r == CleanFields(spec, keysOf, m, body, keysOf(body), 0, [])
      decreases body, 1
    {
      var keys := keysOf(body);
      var newBody: seq<(string, Json)> := [];
      var j := 0;
      while j < |keys|
        invariant 0 <= j <= |keys|
        invariant CleanFields(spec, keysOf, m, body, keys, 0, []) == CleanFields(spec, keysOf, m, body, keys, j, newBody)
        decreases |keys| - j
      {
        if m.None? {
          return Thrown("TypeError: Cannot read properties of undefined (reading 'properties')");
        }
        if m.value.properties.None? {
          return Thrown("TypeError: Cannot read properties of undefined (reading '" + keys[j] + "')");
        }
        var o := CleanField(m.value.properties.value, body, keys[j], keysOf);
        if o.Thrown? {
          return Thrown(o.reason);
        }
        if o.value.Some? {
          newBody := Put(newBody, keys[j], o.value.value);
        }
        j := j + 1;
      }
      return Ok(newBody);
    }

    /** `body.map(item => this.removeReadOnlyProps({model, body: item}))`. */
    method CleanEach(m: Option<Schema>, arr: Json, keysOf: Json -> seq<string>) returns (r: Result<seq<Json>>)
      requires Valid() && arr.Arr?
      ensures r == CleanItems(spec, keysOf, m, arr, 0)
      decreases arr, 1
    {
      var out: seq<Json> := [];
      var i := 0;
      var all := CleanItems(spec, keysOf, m, arr, 0);
      assert all.Ok? ==> [] + all.value == all.value;
      while i < |arr.items|
        invariant 0 <= i <= |arr.items|
        invariant CleanItems(spec, keysOf, m, arr, 0) == Prefixed(out, CleanItems(spec, keysOf, m, arr, i))
        decreases |arr.items| - i
      {
        var c := RemoveReadOnlyProps(None, m, arr.items[i], keysOf);
        NestedIsClean(spec, keysOf, m, arr.items[i]);
        if c.Thrown? {
          return Thrown(c.reason);
        }
        var rest := CleanItems(spec, keysOf, m, arr, i + 1);
        assert rest.Ok? ==> out + ([c.value] + rest.value) == (out + [c.value]) + rest.value;
        out := out + [c.value];
        i := i + 1;
      }
      assert out + [] == out;
      return Ok(out);
    }

    /** The branches of the loop body for one key. */
    method CleanField(props: map<string, Property>, body: Json, k: string, keysOf: Json -> seq<string>)
      returns (r: Result<Option<Json>>)
      requires Valid() && body.Obj?
      ensures r == Outcome(spec, keysOf, props, body, k)
      decreases body, 0
    {
      if k !in props {
        return Ok(Some(ValueOf(body.fields, k)));
      }
      var prop := props[k];
      if prop.readOnly {
        return Ok(None);
      }
      var at := FindKey(body.fields, k);
      if Truthy(prop.ref) {
        if at.None? {
          return Ok(Some(Undefined));
        }
        var sub := Definition(spec, prop.ref.value);
        var c := RemoveReadOnlyProps(None, sub, body.fields[at.value].1, keysOf);
        NestedIsClean(spec, keysOf, sub, body.fields[at.value].1);
        if c.Thrown? {
          return Thrown(c.reason);
        }
        return Ok(Some(c.value));
      }
      if prop.items.Some? && Truthy(prop.items.value.ref) {
        if at.None? {
          return Thrown("TypeError: Cannot read properties of undefined (reading 'map')");
        }
        var v := body.fields[at.value].1;
        if !v.Arr? {
          return Thrown("TypeError: body[propName].map is not a function");
        }
        var cs := CleanEach(Definition(spec, prop.items.value.ref.value), v, keysOf);
        if cs.Thrown? {
          return Thrown(cs.reason);
        }
        return Ok(Some(Arr(cs.value)));
      }
      return Ok(Some(ValueOf(body.fields, k)));
    }
  }

  /** `out` followed by the rest of the map, or the exception. */
  function Prefixed(out: seq<Json>, r: Result<seq<Json>>): Result<seq<Json>> {
    match r
    case Ok(v) => Ok(out + v)
    case Thrown(e) => Thrown(e)
  }
}
