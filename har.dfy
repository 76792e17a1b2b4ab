/** lib/harUtil.js: the HAR records the server writes and reads, the default
    HAR of `readHarFile`, `normalizeRequest` and `createHarEntry`. */
module Har {
  import opened Basics
  import opened Strings
  import opened Http

  /** A request header as written to the HAR; `normalizeRequest` may leave
      its value `undefined`. */
  datatype HeaderField = HeaderField(name: string, value: Option<string>)
  datatype NameValue = NameValue(name: string, value: string)
  datatype PostData = PostData(text: Option<string>)
  datatype HarRequest = HarRequest(
    httpMethod: string,
    url: string,
    headers: seq<HeaderField>,
    queryString: seq<NameValue>,
    postData: PostData)
  datatype Content = Content(mimeType: Option<string>, text: Option<string>)
  datatype HarResponse = HarResponse(
    status: int,
    statusText: Option<string>,
    headers: seq<NameValue>,
    content: Content)
  datatype Entry = Entry(request: HarRequest, response: HarResponse)
  datatype Creator = Creator(name: string, version: string)
  datatype Log = Log(version: real, creator: Creator, entries: seq<Entry>)
  datatype HarFile = HarFile(log: Log)

  const CreatorName := "okta-sdk-test-server"

  /** `readHarFile`: the stored HAR at `path`, or a fresh empty log. The
      tape directory is a map from file path to HAR. */
  function ReadHarFile(store: map<string, HarFile>, path: string, packageVersion: string): (r: HarFile)
    ensures path in store ==> r == store[path]
    ensures path !in store ==>
      r.log.version == 1.2 && r.log.creator == Creator(CreatorName, packageVersion) && r.log.entries == []
  {
    if path in store then store[path]
    else HarFile(Log(1.2, Creator(CreatorName, packageVersion), []))
  }

  // ---------------------------------------------------------------------
  // Query strings

  /** `url.search.slice(1)`: the text after the first `?` and before the
      fragment. */
  function QueryPart(url: string): string {
    var beforeHash := match IndexOf(url, '#') case None => url case Some(i) => url[..i];
    match IndexOf(beforeHash, '?')
    case None => ""
    case Some(i) => beforeHash[i + 1..]
  }

  /** One `name=value` piece; a piece without `=` has an empty value. */
  function PairOf(piece: string): (string, string) {
    match IndexOf(piece, '=')
    case None => (piece, "")
    case Some(i) => (piece[..i], piece[i + 1..])
  }

  /** Pieces between `&`s, empty ones skipped. */
  function PairsOf(pieces: seq<string>): seq<(string, string)> {
    if |pieces| == 0 then []
    else (if pieces[0] == "" then [] else [PairOf(pieces[0])]) + PairsOf(pieces[1..])
  }

  /** The name/value pairs of a query, in order, as `querystring.parse` and
      `URLSearchParams` split them. */
  function ParsePairs(q: string): seq<(string, string)> {
    PairsOf(Split(q, '&'))
  }

  function PiecesOf(ps: seq<(string, string)>): (r: seq<string>)
    ensures |r| == |ps|
    ensures forall i :: 0 <= i < |ps| ==> r[i] == ps[i].0 + "=" + ps[i].1
  {
    if |ps| == 0 then [] else [ps[0].0 + "=" + ps[0].1] + PiecesOf(ps[1..])
  }

  /** `querystring.stringify` of a list of pairs. */
  function Serialize(ps: seq<(string, string)>): string {
    Join(PiecesOf(ps), '&')
  }

  /** Pairs that serialise without ambiguity. */
  predicate Plain(ps: seq<(string, string)>) {
    forall i :: 0 <= i < |ps| ==>
      '&' !in ps[i].0 && '=' !in ps[i].0 && '#' !in ps[i].0 && '&' !in ps[i].1 && '#' !in ps[i].1
  }

  lemma PairOfJoined(n: string, v: string)
    requires '=' !in n
    ensures PairOf(n + "=" + v) == (n, v)
  {
    var s := n + "=" + v;
    assert s[..|n|] == n && s[|n|] == '=' && s[|n| + 1..] == v;
    IndexOfAt(s, '=', |n|);
  }

  lemma PlainTail(ps: seq<(string, string)>)
    requires |ps| > 0 && Plain(ps)
    ensures Plain(ps[1..])
  {
    forall i | 0 <= i < |ps| - 1 ensures ps[1..][i] == ps[i + 1] {
    }
  }

  lemma PairsOfCons(p0: string, rest: seq<string>)
    requires p0 != ""
    ensures PairsOf([p0] + rest) == [PairOf(p0)] + PairsOf(rest)
  {
    assert ([p0] + rest)[1..] == rest;
  }

  lemma PiecesOfCons(ps: seq<(string, string)>)
    requires |ps| > 0
    ensures PiecesOf(ps) == [ps[0].0 + "=" + ps[0].1] + PiecesOf(ps[1..])
    ensures ps[0].0 + "=" + ps[0].1 != ""
  {
    assert |ps[0].0 + "=" + ps[0].1| == |ps[0].0| + 1 + |ps[0].1|;
  }

  lemma {:induction false} PairsOfPieces(ps: seq<(string, string)>)
    requires Plain(ps)
    ensures PairsOf(PiecesOf(ps)) == ps
  {
    if |ps| > 0 {
      var p0 := ps[0].0 + "=" + ps[0].1;
      PiecesOfCons(ps);
      PairsOfCons(p0, PiecesOf(ps[1..]));
      PairOfJoined(ps[0].0, ps[0].1);
      PlainTail(ps);
      PairsOfPieces(ps[1..]);
      assert ps == [ps[0]] + ps[1..];
    }
  }

  /** Parsing a serialised list of pairs gives the list back. */
  lemma ParseSerialize(ps: seq<(string, string)>)
    requires Plain(ps)
    ensures ParsePairs(Serialize(ps)) == ps
  {
    var pieces := PiecesOf(ps);
    if |ps| == 0 {
      assert Serialize(ps) == "";
      assert Split("", '&') == [""];
    } else {
      assert NoneContains(pieces, '&') by {
        forall i | 0 <= i < |pieces| ensures '&' !in pieces[i] {
          assert pieces[i] == ps[i].0 + "=" + ps[i].1;
        }
      }
      SplitJoin(pieces, '&');
      PairsOfPieces(ps);
    }
  }

  /** `parsedUrl.searchParams.entries()`. */
  function SearchParams(url: string): seq<(string, string)> {
    ParsePairs(QueryPart(url))
  }

  /** A URL built from a path and a serialised query yields that query's
      pairs, one per occurrence, in order. */
  lemma SearchParamsOfBuiltUrl(base: string, ps: seq<(string, string)>)
    requires '?' !in base && '#' !in base && Plain(ps)
    ensures SearchParams(base + "?" + Serialize(ps)) == ps
  {
    var q := Serialize(ps);
    var u := base + "?" + q;
    assert '#' !in q by {
      var pieces := PiecesOf(ps);
      if |ps| > 0 {
        assert NoneContains(pieces, '#') by {
          forall i | 0 <= i < |pieces| ensures '#' !in pieces[i] {
            assert pieces[i] == ps[i].0 + "=" + ps[i].1;
          }
        }
        JoinNoChar(pieces, '&', '#');
      }
    }
    assert '#' !in u by {
      forall k | 0 <= k < |u| ensures u[k] != '#' {
        if k < |base| { assert u[k] == base[k]; }
        else if k > |base| { assert u[k] == q[k - |base| - 1]; }
      }
    }
    assert u[..|base|] == base && u[|base|] == '?' && u[|base| + 1..] == q;
    IndexOfAt(u, '?', |base|);
    ParseSerialize(ps);
  }

  lemma {:induction false} JoinNoChar(segs: seq<string>, d: char, c: char)
    requires c != d && NoneContains(segs, c)
    ensures c !in Join(segs, d)
  {
    if |segs| > 1 {
      JoinNoChar(segs[1..], d, c);
      var j := Join(segs[1..], d);
      forall k | 0 <= k < |segs[0] + [d] + j| ensures (segs[0] + [d] + j)[k] != c {
        if k < |segs[0]| { assert (segs[0] + [d] + j)[k] == segs[0][k]; }
        else if k > |segs[0]| { assert (segs[0] + [d] + j)[k] == j[k - |segs[0]| - 1]; }
      }
    }
  }

  // ---------------------------------------------------------------------
  // The sorted query `normalizeRequest` computes

  /** The values `querystring.parse` gathers under one name, in order. */
  function ValuesFor(ps: seq<(string, string)>, k: string): seq<string>
    decreases |ps|
  {
    if |ps| == 0 then []
    else ValuesFor(ps[..|ps| - 1], k) + (if ps[|ps| - 1].0 == k then [ps[|ps| - 1].1] else [])
  }

  function Names(ps: seq<(string, string)>): set<string>
    decreases |ps|
  {
    if |ps| == 0 then {} else Names(ps[..|ps| - 1]) + {ps[|ps| - 1].0}
  }

  function Keys(gs: seq<(string, seq<string>)>): set<string> {
    if |gs| == 0 then {} else {gs[0].0} + Keys(gs[1..])
  }

  /** The values grouped under `k`, or none. */
  function Lookup(gs: seq<(string, seq<string>)>, k: string): seq<string> {
    if |gs| == 0 then [] else if gs[0].0 == k then gs[0].1 else Lookup(gs[1..], k)
  }

  predicate DistinctKeys(gs: seq<(string, seq<string>)>) {
    forall i, j :: 0 <= i < j < |gs| ==> gs[i].0 != gs[j].0
  }

  predicate SortedKeys(gs: seq<(string, seq<string>)>) {
    forall i, j :: 0 <= i < j < |gs| ==> Less(gs[i].0, gs[j].0)
  }

  /** Adds one value under its name, keeping names in first-occurrence order. */
  function AddPair(gs: seq<(string, seq<string>)>, k: string, v: string): seq<(string, seq<string>)> {
    if |gs| == 0 then [(k, [v])]
    else if gs[0].0 == k then [(k, gs[0].1 + [v])] + gs[1..]
    else [gs[0]] + AddPair(gs[1..], k, v)
  }

  /** `querystring.parse`: name to the list of its values. */
  function Group(ps: seq<(string, string)>): seq<(string, seq<string>)>
    decreases |ps|
  {
    if |ps| == 0 then [] else AddPair(Group(ps[..|ps| - 1]), ps[|ps| - 1].0, ps[|ps| - 1].1)
  }

  lemma {:induction false} KeysMember(gs: seq<(string, seq<string>)>, k: string)
    ensures k in Keys(gs) <==> exists i :: 0 <= i < |gs| && gs[i].0 == k
  {
    if |gs| > 0 {
      KeysMember(gs[1..], k);
      if k in Keys(gs[1..]) {
        var i :| 0 <= i < |gs[1..]| && gs[1..][i].0 == k;
        assert gs[i + 1].0 == k;
      }
      if exists i :: 0 <= i < |gs| && gs[i].0 == k {
        var i :| 0 <= i < |gs| && gs[i].0 == k;
        if i > 0 { assert gs[1..][i - 1].0 == k; }
      }
    }
  }

  lemma {:induction false} LookupAt(gs: seq<(string, seq<string>)>, i: nat)
    requires DistinctKeys(gs) && i < |gs|
    ensures Lookup(gs, gs[i].0) == gs[i].1
  {
    if i > 0 {
      assert gs[1..][i - 1] == gs[i];
      LookupAt(gs[1..], i - 1);
    }
  }

  lemma {:induction false} AddPairSpec(gs: seq<(string, seq<string>)>, k: string, v: string)
    requires DistinctKeys(gs)
    ensures DistinctKeys(AddPair(gs, k, v))
    ensures Keys(AddPair(gs, k, v)) == Keys(gs) + {k}
    ensures forall k' :: Lookup(AddPair(gs, k, v), k') == Lookup(gs, k') + (if k' == k then [v] else [])
  {
    var r := AddPair(gs, k, v);
    if |gs| == 0 {
    } else if gs[0].0 == k {
      assert r[1..] == gs[1..];
      forall k' ensures Lookup(r, k') == Lookup(gs, k') + (if k' == k then [v] else []) {
        if k' != k { assert Lookup(r, k') == Lookup(gs[1..], k'); }
      }
    } else {
      AddPairSpec(gs[1..], k, v);
      var t := AddPair(gs[1..], k, v);
      assert r == [gs[0]] + t;
      assert r[1..] == t;
      forall i, j | 0 <= i < j < |r| ensures r[i].0 != r[j].0 {
        if i == 0 {
          KeysMember(t, r[j].0);
          KeysMember(gs[1..], r[j].0);
          assert r[j] == t[j - 1];
          if r[j].0 in Keys(gs[1..]) {
            var m :| 0 <= m < |gs[1..]| && gs[1..][m].0 == r[j].0;
            assert gs[m + 1].0 == r[j].0;
          }
        } else {
          assert r[i] == t[i - 1] && r[j] == t[j - 1];
        }
      }
    }
  }

  lemma {:induction false} GroupSpec(ps: seq<(string, string)>)
    ensures DistinctKeys(Group(ps))
    ensures Keys(Group(ps)) == Names(ps)
    ensures forall k :: Lookup(Group(ps), k) == ValuesFor(ps, k)
    decreases |ps|
  {
    if |ps| > 0 {
      var init := ps[..|ps| - 1];
      GroupSpec(init);
      AddPairSpec(Group(init), ps[|ps| - 1].0, ps[|ps| - 1].1);
    }
  }

  /** Insertion of one group into a list sorted by name. */
  function Insert(g: (string, seq<string>), gs: seq<(string, seq<string>)>): seq<(string, seq<string>)> {
    if |gs| == 0 then [g]
    else if Less(g.0, gs[0].0) then [g] + gs
    else [gs[0]] + Insert(g, gs[1..])
  }

  /** The key order `json-stable-stringify` writes the parsed query in. */
  function Sort(gs: seq<(string, seq<string>)>): seq<(string, seq<string>)> {
    if |gs| == 0 then [] else Insert(gs[0], Sort(gs[1..]))
  }

  lemma SortedTail(gs: seq<(string, seq<string>)>)
    requires |gs| > 0 && SortedKeys(gs)
    ensures SortedKeys(gs[1..])
  {
    forall i, j | 0 <= i < j < |gs[1..]| ensures Less(gs[1..][i].0, gs[1..][j].0) {
      assert gs[1..][i] == gs[i + 1] && gs[1..][j] == gs[j + 1];
    }
  }

  lemma InsertFront(g: (string, seq<string>), gs: seq<(string, seq<string>)>)
    requires |gs| > 0 && SortedKeys(gs) && Less(g.0, gs[0].0)
    ensures SortedKeys([g] + gs)
  {
    var r := [g] + gs;
    forall i, j | 0 <= i < j < |r| ensures Less(r[i].0, r[j].0) {
      if i == 0 && j > 1 {
        assert r[j] == gs[j - 1];
        LessTransitive(g.0, gs[0].0, gs[j - 1].0);
      } else if i > 0 {
        assert r[i] == gs[i - 1] && r[j] == gs[j - 1];
      }
    }
  }

  /** `x` precedes every key of `t` and `t` is sorted: so is `[x] + t`. */
  lemma ConsSorted(x: (string, seq<string>), t: seq<(string, seq<string>)>)
    requires SortedKeys(t) && forall i :: 0 <= i < |t| ==> Less(x.0, t[i].0)
    ensures SortedKeys([x] + t)
  {
    var r := [x] + t;
    forall i, j | 0 <= i < j < |r| ensures Less(r[i].0, r[j].0) {
      if i > 0 {
        assert r[i] == t[i - 1];
      }
      assert r[j] == t[j - 1];
    }
  }

  lemma {:induction false} InsertSpec(g: (string, seq<string>), gs: seq<(string, seq<string>)>)
    requires SortedKeys(gs)
    requires forall i :: 0 <= i < |gs| ==> gs[i].0 != g.0
    ensures SortedKeys(Insert(g, gs))
    ensures multiset(Insert(g, gs)) == multiset(gs) + multiset{g}
  {
    if |gs| == 0 {
    } else if Less(g.0, gs[0].0) {
      InsertFront(g, gs);
    } else {
      LessTotal(g.0, gs[0].0);
      var rest := gs[1..];
      SortedTail(gs);
      assert forall i :: 0 <= i < |rest| ==> rest[i].0 != g.0 by {
        forall i | 0 <= i < |rest| ensures rest[i].0 != g.0 {
          assert rest[i] == gs[i + 1];
        }
      }
      InsertSpec(g, rest);
      var t := Insert(g, rest);
      assert gs == [gs[0]] + rest;
      forall j | 0 <= j < |t| ensures Less(gs[0].0, t[j].0) {
        var x := t[j];
        assert x in multiset(t);
        if x != g {
          assert x in multiset(rest);
          var m :| 0 <= m < |rest| && rest[m] == x;
          assert gs[m + 1] == x;
        }
      }
      ConsSorted(gs[0], t);
    }
  }

  lemma DistinctTail(gs: seq<(string, seq<string>)>)
    requires |gs| > 0 && DistinctKeys(gs)
    ensures DistinctKeys(gs[1..])
    ensures forall i :: 0 <= i < |gs[1..]| ==> gs[1..][i].0 != gs[0].0
  {
    var rest := gs[1..];
    forall i, j | 0 <= i < j < |rest| ensures rest[i].0 != rest[j].0 {
      assert rest[i] == gs[i + 1] && rest[j] == gs[j + 1];
    }
    forall i | 0 <= i < |rest| ensures rest[i].0 != gs[0].0 {
      assert rest[i] == gs[i + 1];
    }
  }

  /** A key absent from `t` is absent from any rearrangement of it. */
  lemma KeyAbsent(t: seq<(string, seq<string>)>, s: seq<(string, seq<string>)>, k: string)
    requires multiset(s) == multiset(t)
    requires forall i :: 0 <= i < |t| ==> t[i].0 != k
    ensures forall i :: 0 <= i < |s| ==> s[i].0 != k
  {
    forall i | 0 <= i < |s| ensures s[i].0 != k {
      assert s[i] in multiset(t);
      var m :| 0 <= m < |t| && t[m] == s[i];
    }
  }

  lemma {:induction false} SortSpec(gs: seq<(string, seq<string>)>)
    requires DistinctKeys(gs)
    ensures SortedKeys(Sort(gs))
    ensures multiset(Sort(gs)) == multiset(gs)
  {
    if |gs| > 0 {
      var rest := gs[1..];
      DistinctTail(gs);
      SortSpec(rest);
      var s := Sort(rest);
      KeyAbsent(rest, s, gs[0].0);
      InsertSpec(gs[0], s);
      assert gs == [gs[0]] + rest;
    }
  }

  /** The query of `normalizeRequest` after `querystring.parse` and the
      key-sorting of `json-stable-stringify`. */
  function SortedGroups(q: string): seq<(string, seq<string>)> {
    Sort(Group(ParsePairs(q)))
  }

  /** The sorted query holds every name of the query once, in ascending
      order, with that name's values in the order they occur. */
  lemma SortedGroupsSpec(q: string)
    ensures var r := SortedGroups(q); var ps := ParsePairs(q);
      && SortedKeys(r)
      && (forall k :: k in Names(ps) <==> exists i :: 0 <= i < |r| && r[i].0 == k)
      && (forall i :: 0 <= i < |r| ==> r[i].1 == ValuesFor(ps, r[i].0))
  {
    var ps := ParsePairs(q);
    var gs := Group(ps);
    GroupSpec(ps);
    SortSpec(gs);
    var r := Sort(gs);
    forall k ensures k in Names(ps) <==> exists i :: 0 <= i < |r| && r[i].0 == k {
      KeysMember(gs, k);
      if k in Names(ps) {
        var i :| 0 <= i < |gs| && gs[i].0 == k;
        assert gs[i] in multiset(r);
        var j :| 0 <= j < |r| && r[j] == gs[i];
      }
      if exists i :: 0 <= i < |r| && r[i].0 == k {
        var i :| 0 <= i < |r| && r[i].0 == k;
        assert r[i] in multiset(gs);
        var j :| 0 <= j < |gs| && gs[j] == r[i];
      }
    }
    forall i | 0 <= i < |r| ensures r[i].1 == ValuesFor(ps, r[i].0) {
      assert r[i] in multiset(gs);
      var j :| 0 <= j < |gs| && gs[j] == r[i];
      LookupAt(gs, j);
    }
  }

  function Flatten(gs: seq<(string, seq<string>)>): seq<(string, string)> {
    if |gs| == 0 then [] else FlattenOne(gs[0].0, gs[0].1) + Flatten(gs[1..])
  }

  function FlattenOne(k: string, vs: seq<string>): seq<(string, string)> {
    if |vs| == 0 then [] else [(k, vs[0])] + FlattenOne(k, vs[1..])
  }

  lemma {:induction false} ValuesForAppend(a: seq<(string, string)>, b: seq<(string, string)>, k: string)
    ensures ValuesFor(a + b, k) == ValuesFor(a, k) + ValuesFor(b, k)
    decreases |b|
  {
    if |b| == 0 {
      assert a + b == a;
    } else {
      var init := b[..|b| - 1];
      assert (a + b)[..|a + b| - 1] == a + init;
      assert (a + b)[|a + b| - 1] == b[|b| - 1];
      ValuesForAppend(a, init, k);
    }
  }

  /** One group flattens to its values under its key and nothing else. */
  lemma {:induction false} ValuesForOne(g: string, vs: seq<string>, k: string)
    ensures ValuesFor(FlattenOne(g, vs), k) == if g == k then vs else []
    decreases |vs|
  {
    if |vs| > 0 {
      ValuesForOne(g, vs[1..], k);
      ValuesForAppend([(g, vs[0])], FlattenOne(g, vs[1..]), k);
      assert [(g, vs[0])][..0] == [];
      assert vs == [vs[0]] + vs[1..];
    }
  }

  lemma LookupAbsent(gs: seq<(string, seq<string>)>, k: string)
    requires forall i :: 0 <= i < |gs| ==> gs[i].0 != k
    ensures Lookup(gs, k) == []
  {
    if |gs| > 0 {
      LookupAbsent(gs[1..], k);
    }
  }

  /** Flattening lists, under each key, exactly the values of its group,
      in order. */
  lemma {:induction false} FlattenSpec(gs: seq<(string, seq<string>)>, k: string)
    requires DistinctKeys(gs)
    ensures ValuesFor(Flatten(gs), k) == Lookup(gs, k)
    decreases |gs|
  {
    if |gs| > 0 {
      DistinctTail(gs);
      FlattenSpec(gs[1..], k);
      ValuesForAppend(FlattenOne(gs[0].0, gs[0].1), Flatten(gs[1..]), k);
      ValuesForOne(gs[0].0, gs[0].1, k);
      if gs[0].0 == k {
        LookupAbsent(gs[1..], k);
      }
    }
  }

  /** The sorted query string `normalizeRequest` assigns to its local URL. */
  function SortedQuery(q: string): string {
    Serialize(Flatten(SortedGroups(q)))
  }

  // ---------------------------------------------------------------------
  // normalizeRequest

  /** `req.headers.name`. */
  function HeaderValue(h: map<string, Option<string>>, name: string): Option<string> {
    if name in h then h[name] else None
  }

  /** The header whitelist: exactly `accept` and `content-type`, with the
      values the request carried. */
  function NormalizedHeaders(h: map<string, Option<string>>): (r: map<string, Option<string>>)
    ensures r.Keys == {"accept", "content-type"}
    ensures r["accept"] == HeaderValue(h, "accept") && r["content-type"] == HeaderValue(h, "content-type")
    ensures "authorization" !in r
  {
    map["accept" := HeaderValue(h, "accept"), "content-type" := HeaderValue(h, "content-type")]
  }

  lemma NormalizedHeadersIdempotent(h: map<string, Option<string>>)
    ensures NormalizedHeaders(NormalizedHeaders(h)) == NormalizedHeaders(h)
  {
  }

  predicate Truthy(v: Option<string>) {
    v.Some? && v.value != ""
  }

  /** The request after `normalizeRequest`, and whether it returned
      normally: `canon` is `stringify(JSON.parse(_))`, `None` where
      `JSON.parse` throws. */
  datatype Normalized = Normalized(state: RequestState, ok: bool)

  function NormalizeState(s: RequestState, canon: string -> Option<string>): (r: Normalized)
    ensures r.state.httpMethod == s.httpMethod && r.state.url == s.url && r.state.body == s.body
    ensures r.state.headers == NormalizedHeaders(s.headers)
    ensures r.ok <==> !Truthy(s.data) || canon(s.data.value).Some?
    ensures r.ok && Truthy(s.data) ==> r.state.data == canon(s.data.value)
    ensures !r.ok || !Truthy(s.data) ==> r.state.data == s.data
  {
    var h := s.(headers := NormalizedHeaders(s.headers));
    if Truthy(s.data) then
      match canon(s.data.value)
      case None => Normalized(h, false)
      case Some(c) => Normalized(h.(data := Some(c)), true)
    else Normalized(h, true)
  }

  /** With a canonicaliser that is idempotent, normalising twice is
      normalising once. */
  lemma NormalizeTwice(s: RequestState, canon: string -> Option<string>)
    requires forall x :: canon(x).Some? ==> canon(canon(x).value) == canon(x)
    ensures NormalizeState(NormalizeState(s, canon).state, canon) == NormalizeState(s, canon)
  {
    var n := NormalizeState(s, canon).state;
    NormalizedHeadersIdempotent(s.headers);
    if Truthy(s.data) && canon(s.data.value).Some? {
      assert canon(canon(s.data.value).value) == canon(s.data.value);
    }
  }

  /** `harUtil.normalizeRequest(req)`; `ok` is false where it throws. */
  method NormalizeRequest(req: Request, canon: string -> Option<string>) returns (ok: bool)
    modifies req
    ensures Normalized(req.State(), ok) == NormalizeState(old(req.State()), canon)
  {
    req.headers := NormalizedHeaders(req.headers);
    var search := QueryPart(req.url);
    if search != "" {
      // assigned to the search of a local URL object and then dropped
      var sorted := SortedQuery(search);
    }
    if req.data.Some? && req.data.value != "" {
      var c := canon(req.data.value);
      if c.None? {
        return false;
      }
      req.data := c;
    }
    return true;
  }

  // ---------------------------------------------------------------------
  // createHarEntry

  /** The response headers kept in a HAR: `content-type` then `link`,
      each only when its value is truthy. */
  function ResponseHeaders(s: ResponseState): (r: seq<NameValue>)
    ensures |r| <= 2
    ensures forall i :: 0 <= i < |r| ==>
      (r[i].name == "content-type" || r[i].name == "link") && HeaderOf(s, r[i].name) == Some(r[i].value) && r[i].value != ""
    ensures Truthy(HeaderOf(s, "content-type")) <==> |r| > 0 && r[0].name == "content-type"
    ensures Truthy(HeaderOf(s, "link")) <==> |r| > 0 && r[|r| - 1].name == "link"
    ensures |r| == (if Truthy(HeaderOf(s, "content-type")) then 1 else 0) + (if Truthy(HeaderOf(s, "link")) then 1 else 0)
  {
    var ct := HeaderOf(s, "content-type");
    var link := HeaderOf(s, "link");
    (if Truthy(ct) then [NameValue("content-type", ct.value)] else [])
      + (if Truthy(link) then [NameValue("link", link.value)] else [])
  }

  /** The `queryString` builder: one name/value pair per search parameter. */
  method QueryStringOf(url: string) returns (aggregate: seq<NameValue>)
    ensures |aggregate| == |SearchParams(url)|
    ensures forall i :: 0 <= i < |aggregate| ==>
      aggregate[i] == NameValue(SearchParams(url)[i].0, SearchParams(url)[i].1)
  {
    var entries := SearchParams(url);
    aggregate := [];
    var i := 0;
    while i < |entries|
      invariant 0 <= i <= |entries|
      invariant |aggregate| == i
      invariant forall j :: 0 <= j < i ==> aggregate[j] == NameValue(entries[j].0, entries[j].1)
    {
      aggregate := aggregate + [NameValue(entries[i].0, entries[i].1)];
      i := i + 1;
    }
  }

  function QueryParams(url: string): seq<NameValue> {
    var ps := SearchParams(url);
    seq(|ps|, i requires 0 <= i < |ps| => NameValue(ps[i].0, ps[i].1))
  }

  /** The entry built from a request already normalised. */
  function EntryOf(target: Option<string>, responseBody: string, req: RequestState, res: ResponseState): Entry {
    var url := Render(target) + req.url;
    Entry(
      HarRequest(
        Upper(req.httpMethod),
        url,
        [HeaderField("accept", HeaderValue(req.headers, "accept")),
         HeaderField("content-type", HeaderValue(req.headers, "content-type"))],
        QueryParams(url),
        PostData(req.body)),
      HarResponse(
        res.statusCode,
        res.statusMessage,
        ResponseHeaders(res),
        Content(HeaderOf(res, "content-type"), Some(responseBody))))
  }

  /** `createHarEntry` on the request as it arrived: `None` where
      `normalizeRequest` throws. */
  function HarEntryOf(target: Option<string>, responseBody: string, req: RequestState, res: ResponseState,
                      canon: string -> Option<string>): (r: Option<Entry>)
    ensures r.Some? <==> NormalizeState(req, canon).ok
    ensures r.Some? ==>
      var e := r.value.request;
      && e.httpMethod == Upper(req.httpMethod)
      && e.url == Render(target) + req.url
      && e.postData.text == req.body
      && e.headers == [HeaderField("accept", HeaderValue(req.headers, "accept")),
                       HeaderField("content-type", HeaderValue(req.headers, "content-type"))]
      && |e.queryString| == |SearchParams(e.url)|
      && (forall i :: 0 <= i < |e.queryString| ==>
            e.queryString[i] == NameValue(SearchParams(e.url)[i].0, SearchParams(e.url)[i].1))
    ensures r.Some? ==>
      var p := r.value.response;
      && p.status == res.statusCode
      && p.statusText == res.statusMessage
      && p.headers == ResponseHeaders(res)
      && p.content == Content(HeaderOf(res, "content-type"), Some(responseBody))
  {
    var n := NormalizeState(req, canon);
    if n.ok then Some(EntryOf(target, responseBody, n.state, res)) else None
  }

  /** No credential reaches a HAR: the only request headers written are
      `accept` and `content-type`. */
  lemma EntryHasNoAuthorization(target: Option<string>, responseBody: string, req: RequestState,
                                res: ResponseState, canon: string -> Option<string>)
    requires HarEntryOf(target, responseBody, req, res, canon).Some?
    ensures forall h :: h in HarEntryOf(target, responseBody, req, res, canon).value.request.headers ==>
      h.name != "authorization" && h.name != "host"
  {
  }

  /** `harUtil.createHarEntry({proxyTarget, responseBody, req, res})`. */
  method CreateHarEntry(target: Option<string>, responseBody: string, req: Request, res: Response,
                        canon: string -> Option<string>) returns (entry: Option<Entry>)
    modifies req
    ensures Normalized(req.State(), entry.Some?) == NormalizeState(old(req.State()), canon)
    ensures entry == HarEntryOf(target, responseBody, old(req.State()), res.State(), canon)
  {
    var ok := NormalizeRequest(req, canon);
    if !ok {
      return None;
    }
    var url := Render(target) + req.url;
    var queryString := QueryStringOf(url);
    var request := HarRequest(
      Upper(req.httpMethod),
      url,
      [HeaderField("accept", HeaderValue(req.headers, "accept")),
       HeaderField("content-type", HeaderValue(req.headers, "content-type"))],
      queryString,
      PostData(req.body));
    var response := HarResponse(
      res.statusCode,
      res.statusMessage,
      ResponseHeaders(res.State()),
      Content(HeaderOf(res.State(), "content-type"), Some(responseBody)));
    assert queryString == QueryParams(url);
    entry := Some(Entry(request, response));
    assert entry == Some(EntryOf(target, responseBody, req.State(), res.State()));
  }
}
