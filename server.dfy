/** lib/server.js: the session router, the playback engine over the map of
    scenario queues, and the recording path over the tape directory. The
    tape directory is a map from file path to HAR; the upstream call is a
    parameter giving its outcome. */
module Server {
  import opened Basics
  import opened Strings
  import opened Http
  import opened Har
  import Util

  const NoScenarioMessage := "must prefix request with a scenario"

  /** `scenarioRegex` = `^/([^/]*)?/`: the scenario key and the rewritten
      URL, or `None` when the URL does not match. An empty first segment
      leaves the optional group unmatched, so the key is `undefined`. */
  function Route(url: string): (r: Option<(string, string)>)
    ensures r.Some? <==> |url| > 0 && url[0] == '/' && '/' in url[1..]
  {
    if |url| == 0 || url[0] != '/' then None
    else
      match IndexOf(url[1..], '/')
      case None => None
      case Some(i) =>
        var name := url[1..i + 1];
        Some((if name == "" then "undefined" else name, "/" + url[i + 2..]))
  }

  /** A URL `/name/rest` routes to `name` (or `undefined` when empty) and
      is rewritten to `/rest`. */
  lemma RoutePrefixed(name: string, rest: string)
    requires '/' !in name
    ensures Route("/" + name + "/" + rest) == Some((if name == "" then "undefined" else name, "/" + rest))
  {
    var url := "/" + name + "/" + rest;
    var tail := name + "/" + rest;
    assert url == "/" + tail;
    assert url[1..] == tail;
    assert tail[..|name|] == name && tail[|name|] == '/';
    IndexOfAt(tail, '/', |name|);
    assert url[1..|name| + 1] == tail[..|name|];
    assert url[|name| + 2..] == tail[|name| + 1..] == rest;
  }

  /** Cutting `s` at its first `/` gives a `/`-free name and the rest. */
  lemma CutAtSlash(s: string) returns (name: string, rest: string)
    requires '/' in s
    ensures '/' !in name && s == name + "/" + rest
  {
    var i := IndexOf(s, '/').value;
    name, rest := s[..i], s[i + 1..];
    assert s == s[..i] + [s[i]] + s[i + 1..];
  }

  /** Every URL the router accepts has the form `/name/rest`. */
  lemma RouteComplete(url: string)
    requires Route(url).Some?
    ensures exists name, rest :: '/' !in name && url == "/" + name + "/" + rest
  {
    assert |url| > 0 && url[0] == '/' && '/' in url[1..];
    var name, rest := CutAtSlash(url[1..]);
    Reassoc("/", name, rest);
    assert url == "/" + url[1..];
  }

  lemma Reassoc(a: string, name: string, rest: string)
    ensures a + name + "/" + rest == a + (name + "/" + rest)
  {
  }

  function NotFoundMessage(name: string): string {
    "no record for a scenario named " + name
  }

  /** The over-run diagnostic; it shows the request before normalisation. */
  function OverrunMessage(name: string, req: RequestState, target: Option<string>): string {
    "\n      Making more requests than we have a record for '" + name + "':\n      "
      + req.httpMethod + " " + Render(target) + req.url + "\n      "
      + Render(req.body) + "\n    "
  }

  function MismatchMessage(name: string, expected: HarRequest, req: RequestState, target: Option<string>): string {
    "\n        Error retrieving response for '" + name + "'.\n        \n        Expected:\n        "
      + expected.httpMethod + " " + expected.url + "\n        "
      + Render(expected.postData.text) + "\n\n        Received:\n        "
      + req.httpMethod + " " + Render(target) + req.url + "\n        "
      + Render(req.body) + "\n      "
  }

  /** The request validation of `playbackProxy`: full URL, method and body. */
  predicate Matches(target: Option<string>, req: RequestState, expected: HarRequest) {
    && Render(target) + req.url == expected.url
    && req.httpMethod == expected.httpMethod
    && req.body == expected.postData.text
  }

  /** `nextResponse.headers.map(header => res.setHeader(...))`. */
  function ApplyHeaders(s: ResponseState, hs: seq<NameValue>): ResponseState
    decreases |hs|
  {
    if |hs| == 0 then s else ApplyHeaders(SetHeaderOn(s, hs[0].name, hs[0].value), hs[1..])
  }

  predicate DistinctNames(hs: seq<NameValue>) {
    forall i, j :: 0 <= i < j < |hs| ==> Lower(hs[i].name) != Lower(hs[j].name)
  }

  /** Replayed headers: every stored header under its name, every other
      header as before, nothing else of the response touched. */
  lemma {:induction false} ApplyHeadersSpec(s: ResponseState, hs: seq<NameValue>)
    requires DistinctNames(hs)
    ensures var r := ApplyHeaders(s, hs);
      && r == s.(headers := r.headers)
      && (forall i :: 0 <= i < |hs| ==> Lower(hs[i].name) in r.headers && r.headers[Lower(hs[i].name)] == hs[i].value)
      && (forall k :: k in s.headers && (forall i :: 0 <= i < |hs| ==> Lower(hs[i].name) != k) ==>
            k in r.headers && r.headers[k] == s.headers[k])
    decreases |hs|
  {
    if |hs| > 0 {
      var s' := SetHeaderOn(s, hs[0].name, hs[0].value);
      var rest := hs[1..];
      assert DistinctNames(rest) by {
        forall i, j | 0 <= i < j < |rest| ensures Lower(rest[i].name) != Lower(rest[j].name) {
          assert rest[i] == hs[i + 1] && rest[j] == hs[j + 1];
        }
      }
      ApplyHeadersSpec(s', rest);
      var r := ApplyHeaders(s', rest);
      forall i | 0 <= i < |hs| ensures Lower(hs[i].name) in r.headers && r.headers[Lower(hs[i].name)] == hs[i].value {
        if i == 0 {
          forall j | 0 <= j < |rest| ensures Lower(rest[j].name) != Lower(hs[0].name) {
            assert rest[j] == hs[j + 1];
          }
        } else {
          assert hs[i] == rest[i - 1];
        }
      }
      forall k | k in s.headers && (forall i :: 0 <= i < |hs| ==> Lower(hs[i].name) != k)
        ensures k in r.headers && r.headers[k] == s.headers[k]
      {
        assert Lower(hs[0].name) != k;
        forall j | 0 <= j < |rest| ensures Lower(rest[j].name) != k {
          assert rest[j] == hs[j + 1];
        }
      }
    }
  }

  /** What a playback request yields: the request as normalised, the
      response, and whether `normalizeRequest` threw. */
  datatype Served = Served(req: RequestState, res: ResponseState, threw: bool)

  /** The part of `playbackProxy` after the head entry `next` is popped. */
  function Answer(next: Entry, target: Option<string>, name: string, req: RequestState, res: ResponseState,
                  canon: string -> Option<string>): (r: Served)
    ensures r.req == NormalizeState(req, canon).state
    ensures r.threw <==> !NormalizeState(req, canon).ok
    ensures r.threw ==> r.res == res
    ensures !r.threw ==> r.res.ended
  {
    var n := NormalizeState(req, canon);
    if !n.ok then Served(n.state, res, true)
    else if !Matches(target, n.state, next.request) then
      Served(n.state, EndWith(res.(statusCode := 400), Some(MismatchMessage(name, next.request, n.state, target))), false)
    else
      var p := next.response;
      var r := ApplyHeaders(res.(statusCode := p.status, statusMessage := p.statusText), p.headers);
      Served(n.state, EndWith(r, p.content.text), false)
  }

  datatype PlaybackStep = PlaybackStep(scenarios: map<string, seq<Entry>>, served: Served)

  /** `playbackProxy({scenarioName, req, res})` over the scenario map. */
  function Playback(scenarios: map<string, seq<Entry>>, target: Option<string>, name: string,
                    req: RequestState, res: ResponseState, canon: string -> Option<string>): (r: PlaybackStep)
    ensures r.scenarios.Keys == scenarios.Keys
    ensures forall k :: k in scenarios && k != name ==> r.scenarios[k] == scenarios[k]
    ensures !r.served.threw ==> r.served.res.ended
  {
    if name !in scenarios then
      PlaybackStep(scenarios, Served(req, EndWith(res.(statusCode := 404), Some(NotFoundMessage(name))), false))
    else if |scenarios[name]| == 0 then
      PlaybackStep(scenarios, Served(req, EndWith(res.(statusCode := 400), Some(OverrunMessage(name, req, target))), false))
    else
      PlaybackStep(scenarios[name := scenarios[name][1..]], Answer(scenarios[name][0], target, name, req, res, canon))
  }

  /** A scenario that was never loaded: 404 and no change. */
  lemma PlaybackUnknown(scenarios: map<string, seq<Entry>>, target: Option<string>, name: string,
                        req: RequestState, res: ResponseState, canon: string -> Option<string>)
    requires name !in scenarios
    ensures var p := Playback(scenarios, target, name, req, res, canon);
      && p.scenarios == scenarios && !p.served.threw && p.served.req == req
      && p.served.res.statusCode == 404 && p.served.res.ended
      && p.served.res.body == Some(NotFoundMessage(name))
  {
  }

  /** A scenario whose entries are used up: 400 and no change. */
  lemma PlaybackExhausted(scenarios: map<string, seq<Entry>>, target: Option<string>, name: string,
                          req: RequestState, res: ResponseState, canon: string -> Option<string>)
    requires name in scenarios && scenarios[name] == []
    ensures var p := Playback(scenarios, target, name, req, res, canon);
      && p.scenarios == scenarios && !p.served.threw && p.served.req == req
      && p.served.res.statusCode == 400 && p.served.res.ended
      && p.served.res.body == Some(OverrunMessage(name, req, target))
  {
  }

  /** Otherwise exactly the head entry of that scenario is consumed, match
      or not, and the request is answered from that entry alone. */
  lemma PlaybackConsumesHead(scenarios: map<string, seq<Entry>>, target: Option<string>, name: string,
                             req: RequestState, res: ResponseState, canon: string -> Option<string>)
    requires name in scenarios && scenarios[name] != []
    ensures var p := Playback(scenarios, target, name, req, res, canon);
      && p.scenarios.Keys == scenarios.Keys
      && p.scenarios[name] == scenarios[name][1..]
      && (forall n :: n in scenarios && n != name ==> p.scenarios[n] == scenarios[n])
      && p.served == Answer(scenarios[name][0], target, name, req, res, canon)
  {
  }

  /** A request is served from the entry iff URL, method and body agree;
      then status, status text, every stored header and the body are
      replayed as stored; otherwise the answer is 400. */
  lemma AnswerSpec(next: Entry, target: Option<string>, name: string, req: RequestState, res: ResponseState,
                   canon: string -> Option<string>)
    requires NormalizeState(req, canon).ok
    requires DistinctNames(next.response.headers)
    ensures var a := Answer(next, target, name, req, res, canon);
      && !a.threw && a.res.ended
      && (Matches(target, req, next.request) ==>
            && a.res.statusCode == next.response.status
            && a.res.statusMessage == next.response.statusText
            && a.res.body == next.response.content.text
            && (forall i :: 0 <= i < |next.response.headers| ==>
                  var h := next.response.headers[i];
                  Lower(h.name) in a.res.headers && a.res.headers[Lower(h.name)] == h.value))
      && (!Matches(target, req, next.request) ==>
            a.res.statusCode == 400 && a.res.body == Some(MismatchMessage(name, next.request, a.req, target)))
  {
    var n := NormalizeState(req, canon);
    var p := next.response;
    if Matches(target, n.state, next.request) {
      ApplyHeadersSpec(res.(statusCode := p.status, statusMessage := p.statusText), p.headers);
    }
  }

  /** The responses and the final map of a series of playback requests on
      one scenario, each answered on a fresh response. */
  datatype Run = Run(scenarios: map<string, seq<Entry>>, responses: seq<ResponseState>)

  function PlaybackRun(scenarios: map<string, seq<Entry>>, target: Option<string>, name: string,
                       reqs: seq<RequestState>, canon: string -> Option<string>): (r: Run)
    ensures |r.responses| == |reqs|
    decreases |reqs|
  {
    if |reqs| == 0 then Run(scenarios, [])
    else
      var step := Playback(scenarios, target, name, reqs[0], Fresh(), canon);
      var rest := PlaybackRun(step.scenarios, target, name, reqs[1..], canon);
      Run(rest.scenarios, [step.served.res] + rest.responses)
  }

  /** k requests consume the first k entries of the scenario and no
      other scenario changes. */
  lemma {:induction false} FifoScenarios(scenarios: map<string, seq<Entry>>, target: Option<string>, name: string,
                                         reqs: seq<RequestState>, canon: string -> Option<string>)
    requires name in scenarios && |reqs| <= |scenarios[name]|
    ensures PlaybackRun(scenarios, target, name, reqs, canon).scenarios == scenarios[name := scenarios[name][|reqs|..]]
    decreases |reqs|
  {
    if |reqs| > 0 {
      var q := scenarios[name];
      var step := Playback(scenarios, target, name, reqs[0], Fresh(), canon);
      assert step.scenarios == scenarios[name := q[1..]];
      FifoScenarios(step.scenarios, target, name, reqs[1..], canon);
      assert q[1..][|reqs| - 1..] == q[|reqs|..];
      UpdateTwice(scenarios, name, q[1..], q[|reqs|..]);
    }
  }

  lemma UpdateTwice(m: map<string, seq<Entry>>, k: string, a: seq<Entry>, b: seq<Entry>)
    ensures m[k := a][k := b] == m[k := b]
  {
  }

  /** ... and the i-th request is answered from the i-th entry. */
  lemma {:induction false} FifoResponses(scenarios: map<string, seq<Entry>>, target: Option<string>, name: string,
                                         reqs: seq<RequestState>, canon: string -> Option<string>)
    requires name in scenarios && |reqs| <= |scenarios[name]|
    ensures var run := PlaybackRun(scenarios, target, name, reqs, canon);
      forall i :: 0 <= i < |reqs| ==>
        run.responses[i] == Answer(scenarios[name][i], target, name, reqs[i], Fresh(), canon).res
    decreases |reqs|
  {
    if |reqs| > 0 {
      var q := scenarios[name];
      var step := Playback(scenarios, target, name, reqs[0], Fresh(), canon);
      var after := scenarios[name := q[1..]];
      assert step.scenarios == after && step.served == Answer(q[0], target, name, reqs[0], Fresh(), canon);
      FifoResponses(after, target, name, reqs[1..], canon);
      var rest := PlaybackRun(after, target, name, reqs[1..], canon);
      var run := PlaybackRun(scenarios, target, name, reqs, canon);
      assert run.responses == [step.served.res] + rest.responses;
      forall i | 0 <= i < |reqs|
        ensures run.responses[i] == Answer(q[i], target, name, reqs[i], Fresh(), canon).res
      {
        if i > 0 {
          assert run.responses[i] == rest.responses[i - 1];
          assert reqs[1..][i - 1] == reqs[i] && after[name][i - 1] == q[i];
        }
      }
    }
  }

  /** FIFO consumption: k requests consume entries 1..k in recorded order,
      the i-th request is answered from the i-th entry, and no other
      scenario changes. */
  lemma FifoConsumption(scenarios: map<string, seq<Entry>>, target: Option<string>, name: string,
                        reqs: seq<RequestState>, canon: string -> Option<string>)
    requires name in scenarios && |reqs| <= |scenarios[name]|
    ensures var run := PlaybackRun(scenarios, target, name, reqs, canon);
      && run.scenarios == scenarios[name := scenarios[name][|reqs|..]]
      && forall i :: 0 <= i < |reqs| ==>
           run.responses[i] == Answer(scenarios[name][i], target, name, reqs[i], Fresh(), canon).res
  {
    FifoScenarios(scenarios, target, name, reqs, canon);
    FifoResponses(scenarios, target, name, reqs, canon);
  }

  /** Once every entry is consumed, any further request over-runs. */
  lemma Exhaustion(scenarios: map<string, seq<Entry>>, target: Option<string>, name: string,
                   reqs: seq<RequestState>, extra: RequestState, canon: string -> Option<string>)
    requires name in scenarios && |reqs| == |scenarios[name]|
    ensures var after := PlaybackRun(scenarios, target, name, reqs, canon).scenarios;
      var p := Playback(after, target, name, extra, Fresh(), canon);
      && p.scenarios == after
      && p.served.res.statusCode == 400
      && p.served.res.body == Some(OverrunMessage(name, extra, target))
  {
    FifoConsumption(scenarios, target, name, reqs, canon);
    assert scenarios[name][|reqs|..] == [];
  }

  // ---------------------------------------------------------------------
  // Recording

  /** What the `request` call reports: a transport error, or the upstream
      body (status and headers reach `res` through the pipe). */
  datatype Upstream = TransportError(error: string) | Delivered(body: string)

  /** The request `recordProxy` sends upstream. */
  datatype Forward = Forward(httpMethod: string, uri: string, headers: map<string, Option<string>>, body: Option<string>)

  /** `path.join(harDirectory, `${scenarioName}.har`)`. */
  function TapePath(tapeDir: string, name: string): string {
    Util.JoinPath(tapeDir, name + ".har")
  }

  function Appended(har: HarFile, e: Entry): HarFile {
    HarFile(har.log.(entries := har.log.entries + [e]))
  }

  datatype RecordStep = RecordStep(store: map<string, HarFile>, req: RequestState, res: ResponseState,
                                   forwarded: Forward, threw: bool)

  /** `recordProxy({scenarioName, req, res})`, `res` being the response as
      the upstream pipe has left it when the callback runs. */
  function Record(store: map<string, HarFile>, tapeDir: string, packageVersion: string, target: Option<string>,
                  name: string, req: RequestState, res: ResponseState, upstream: Upstream,
                  canon: string -> Option<string>): (r: RecordStep)
    ensures r.store.Keys <= store.Keys + {TapePath(tapeDir, name)}
    ensures forall p :: p in store && p != TapePath(tapeDir, name) ==> p in r.store && r.store[p] == store[p]
    ensures r.threw ==> r.store == store
    ensures !r.threw ==> TapePath(tapeDir, name) in r.store
  {
    var fwd := Forward(req.httpMethod, Render(target) + req.url, req.headers, req.body);
    match upstream
    case TransportError(err) =>
      // `res.send` does not exist on a plain `http` response: the call throws.
      RecordStep(store, req, res.(responseCode := Some(500)), fwd, true)
    case Delivered(body) =>
      var path := TapePath(tapeDir, name);
      var har := ReadHarFile(store, path, packageVersion);
      var n := NormalizeState(req, canon);
      match HarEntryOf(target, body, req, res, canon)
      case None => RecordStep(store, n.state, res, fwd, true)
      case Some(e) => RecordStep(store[path := Appended(har, e)], n.state, res, fwd, false)
  }

  /** On success the scenario's tape holds its old entries followed by the
      new one; no other tape changes. */
  lemma RecordAppends(store: map<string, HarFile>, tapeDir: string, packageVersion: string, target: Option<string>,
                      name: string, req: RequestState, res: ResponseState, body: string,
                      canon: string -> Option<string>)
    requires NormalizeState(req, canon).ok
    ensures var r := Record(store, tapeDir, packageVersion, target, name, req, res, Delivered(body), canon);
      var path := TapePath(tapeDir, name);
      var before := if path in store then store[path].log.entries else [];
      && !r.threw
      && r.store.Keys == store.Keys + {path}
      && r.store[path].log.entries == before + [HarEntryOf(target, body, req, res, canon).value]
      && (path !in store ==> r.store[path].log.creator.name == CreatorName && r.store[path].log.version == 1.2)
      && (forall p :: p in store && p != path ==> r.store[p] == store[p])
  {
    var path := TapePath(tapeDir, name);
    var har := ReadHarFile(store, path, packageVersion);
    var e := HarEntryOf(target, body, req, res, canon).value;
    var r := Record(store, tapeDir, packageVersion, target, name, req, res, Delivered(body), canon);
    assert r.store == store[path := Appended(har, e)] && !r.threw;
  }

  /** Whatever upstream answers, the request forwarded is the one
      received, sent to `proxyTarget + url`, and only the scenario's own
      tape can change. */
  lemma RecordForwards(store: map<string, HarFile>, tapeDir: string, packageVersion: string, target: Option<string>,
                       name: string, req: RequestState, res: ResponseState, upstream: Upstream,
                       canon: string -> Option<string>)
    ensures var r := Record(store, tapeDir, packageVersion, target, name, req, res, upstream, canon);
      && r.forwarded == Forward(req.httpMethod, Render(target) + req.url, req.headers, req.body)
      && (forall p :: p in store && p != TapePath(tapeDir, name) ==> p in r.store && r.store[p] == store[p])
  {
  }

  /** On a transport error nothing is written; the code sets
      `responseCode`, so `statusCode` keeps its value, and then calls
      `res.send`, which a plain `http` response lacks: the callback throws
      and the response is never ended. */
  lemma RecordTransportError(store: map<string, HarFile>, tapeDir: string, packageVersion: string,
                             target: Option<string>, name: string, req: RequestState, res: ResponseState,
                             err: string, canon: string -> Option<string>)
    ensures var r := Record(store, tapeDir, packageVersion, target, name, req, res, TransportError(err), canon);
      && r.store == store && r.req == req && r.threw
      && r.res == res.(responseCode := Some(500))
      && r.res.statusCode == res.statusCode && r.res.ended == res.ended && r.res.body == res.body
  {
  }

  /** The headers a HAR response keeps have distinct lower-case names. */
  lemma ResponseHeadersLower(res: ResponseState)
    ensures DistinctNames(ResponseHeaders(res))
    ensures forall h :: h in ResponseHeaders(res) ==> Lower(h.name) == h.name
  {
    LowerFixed("content-type");
    LowerFixed("link");
  }

  /** The request recorded from `req` is the one `req` is validated
      against on playback. */
  lemma RecordedRequestMatches(target: Option<string>, body: string, req: RequestState, res: ResponseState,
                               canon: string -> Option<string>)
    requires NormalizeState(req, canon).ok
    requires Upper(req.httpMethod) == req.httpMethod
    ensures Matches(target, NormalizeState(req, canon).state, HarEntryOf(target, body, req, res, canon).value.request)
  {
  }

  /** Answering the recorded request from the entry just recorded gives
      back the recorded response. */
  lemma RecordedAnswer(target: Option<string>, body: string, req: RequestState, res: ResponseState,
                       name: string, canon: string -> Option<string>, e: Entry)
    requires NormalizeState(req, canon).ok
    requires Upper(req.httpMethod) == req.httpMethod
    requires HarEntryOf(target, body, req, res, canon) == Some(e)
    ensures var a := Answer(e, target, name, req, Fresh(), canon);
      && a.res.statusCode == res.statusCode
      && a.res.statusMessage == res.statusMessage
      && a.res.body == Some(body)
      && (forall h :: h in ResponseHeaders(res) ==> h.name in a.res.headers && a.res.headers[h.name] == h.value)
  {
    var hs := ResponseHeaders(res);
    assert e.response.headers == hs;
    ResponseHeadersLower(res);
    RecordedRequestMatches(target, body, req, res, canon);
    AnswerSpec(e, target, name, req, Fresh(), canon);
    var a := Answer(e, target, name, req, Fresh(), canon);
    forall h | h in hs ensures h.name in a.res.headers && a.res.headers[h.name] == h.value {
      var i :| 0 <= i < |hs| && hs[i] == h;
    }
  }

  /** A recorded exchange replays: playing the same request back against
      the entry recording just made returns the recorded status, status
      text, headers and body. */
  lemma RecordThenPlayback(target: Option<string>, body: string, req: RequestState, res: ResponseState,
                           name: string, canon: string -> Option<string>)
    requires NormalizeState(req, canon).ok
    requires Upper(req.httpMethod) == req.httpMethod
    ensures var e := HarEntryOf(target, body, req, res, canon).value;
      var p := Playback(map[name := [e]], target, name, req, Fresh(), canon);
      && p.scenarios == map[name := []]
      && p.served.res.statusCode == res.statusCode
      && p.served.res.statusMessage == res.statusMessage
      && p.served.res.body == Some(body)
      && (forall h :: h in ResponseHeaders(res) ==> h.name in p.served.res.headers && p.served.res.headers[h.name] == h.value)
  {
    var e := HarEntryOf(target, body, req, res, canon).value;
    PlaybackSingle(e, target, name, req, Fresh(), canon);
    RecordedAnswer(target, body, req, res, name, canon, e);
  }

  /** A scenario of one entry is answered from it and left empty. */
  lemma PlaybackSingle(e: Entry, target: Option<string>, name: string, req: RequestState, res: ResponseState,
                       canon: string -> Option<string>)
    ensures Playback(map[name := [e]], target, name, req, res, canon)
      == PlaybackStep(map[name := []], Answer(e, target, name, req, res, canon))
  {
    assert [e][1..] == [];
  }

  // ---------------------------------------------------------------------
  // The request listener

  /** The request handed to record or playback: URL rewritten, `host`
      dropped, body parsed. */
  function Prepared(req: RequestState, url: string, body: Option<string>): (r: RequestState)
    ensures "host" !in r.headers
    ensures r.headers.Keys == req.headers.Keys - {"host"}
    ensures forall k :: k in r.headers ==> r.headers[k] == req.headers[k]
  {
    req.(url := url, headers := req.headers - {"host"}, body := body)
  }

  datatype HandleStep = HandleStep(scenarios: map<string, seq<Entry>>, store: map<string, HarFile>,
                                   req: RequestState, res: ResponseState, forwarded: Option<Forward>, threw: bool)

  /** The `http.createServer` listener. `body` is what the text parser
      reads. */
  function Handle(record: bool, tapeDir: string, packageVersion: string, target: Option<string>,
                  scenarios: map<string, seq<Entry>>, store: map<string, HarFile>,
                  req: RequestState, res: ResponseState, body: Option<string>, upstream: Upstream,
                  canon: string -> Option<string>): (r: HandleStep)
    ensures r.forwarded.Some? <==> record && Route(req.url).Some?
    ensures record ==> r.scenarios == scenarios
    ensures !record ==> r.store == store
  {
    match Route(req.url)
    case None =>
      HandleStep(scenarios, store, req, EndWith(res.(statusCode := 400), Some(NoScenarioMessage)), None, false)
    case Some((name, url)) =>
      var p := Prepared(req, url, body);
      if record then
        var r := Record(store, tapeDir, packageVersion, target, name, p, res, upstream, canon);
        HandleStep(scenarios, r.store, r.req, r.res, Some(r.forwarded), r.threw)
      else
        var s := Playback(scenarios, target, name, p, res, canon);
        HandleStep(s.scenarios, store, s.served.req, s.served.res, None, s.served.threw)
  }

  /** A URL without a scenario prefix gets 400 and nothing is dispatched. */
  lemma HandleUnrouted(record: bool, tapeDir: string, packageVersion: string, target: Option<string>,
                       scenarios: map<string, seq<Entry>>, store: map<string, HarFile>,
                       req: RequestState, res: ResponseState, body: Option<string>, upstream: Upstream,
                       canon: string -> Option<string>)
    requires !(|req.url| > 0 && req.url[0] == '/' && '/' in req.url[1..])
    ensures var h := Handle(record, tapeDir, packageVersion, target, scenarios, store, req, res, body, upstream, canon);
      && h.scenarios == scenarios && h.store == store && h.req == req && h.forwarded.None?
      && h.res.statusCode == 400 && h.res.body == Some(NoScenarioMessage)
  {
  }

  /** A routed request is recorded or played back after `Prepared`. */
  lemma HandleRouted(record: bool, tapeDir: string, packageVersion: string, target: Option<string>,
                     scenarios: map<string, seq<Entry>>, store: map<string, HarFile>,
                     req: RequestState, res: ResponseState, body: Option<string>, upstream: Upstream,
                     canon: string -> Option<string>, name: string, url: string)
    requires Route(req.url) == Some((name, url))
    ensures var h := Handle(record, tapeDir, packageVersion, target, scenarios, store, req, res, body, upstream, canon);
      var p := Prepared(req, url, body);
      && (record ==>
            var r := Record(store, tapeDir, packageVersion, target, name, p, res, upstream, canon);
            h == HandleStep(scenarios, r.store, r.req, r.res, Some(r.forwarded), r.threw))
      && (!record ==>
            var s := Playback(scenarios, target, name, p, res, canon);
            h == HandleStep(s.scenarios, store, s.served.req, s.served.res, None, s.served.threw))
  {
  }

  /** In record mode a routed request is forwarded with the rewritten
      URL appended to the proxy target and the `host` header gone; no
      scenario and no other tape changes. */
  lemma HandleRecordForwards(tapeDir: string, packageVersion: string, target: Option<string>,
                             scenarios: map<string, seq<Entry>>, store: map<string, HarFile>,
                             req: RequestState, res: ResponseState, body: Option<string>, upstream: Upstream,
                             canon: string -> Option<string>, name: string, url: string)
    requires Route(req.url) == Some((name, url))
    ensures var h := Handle(true, tapeDir, packageVersion, target, scenarios, store, req, res, body, upstream, canon);
      && h.scenarios == scenarios
      && h.forwarded == Some(Forward(req.httpMethod, Render(target) + url, req.headers - {"host"}, body))
      && "host" !in h.forwarded.value.headers
      && (forall p :: p in store && p != TapePath(tapeDir, name) ==> p in h.store && h.store[p] == store[p])
  {
    var p := Prepared(req, url, body);
    HandleRouted(true, tapeDir, packageVersion, target, scenarios, store, req, res, body, upstream, canon, name, url);
    RecordForwards(store, tapeDir, packageVersion, target, name, p, res, upstream, canon);
  }

  /** In playback mode `/name/rest` is played against scenario `name` with
      the URL `/rest`, the `host` header gone, and the tape directory
      untouched. */
  lemma HandlePlaybackDispatch(tapeDir: string, packageVersion: string, target: Option<string>,
                               scenarios: map<string, seq<Entry>>, store: map<string, HarFile>,
                               req: RequestState, res: ResponseState, body: Option<string>, upstream: Upstream,
                               canon: string -> Option<string>, name: string, rest: string)
    requires name != "" && '/' !in name && req.url == "/" + name + "/" + rest
    ensures var h := Handle(false, tapeDir, packageVersion, target, scenarios, store, req, res, body, upstream, canon);
      var p := Playback(scenarios, target, name, Prepared(req, "/" + rest, body), res, canon);
      && h.store == store && h.forwarded.None?
      && h.scenarios == p.scenarios && h.res == p.served.res
  {
    RoutePrefixed(name, rest);
  }

  // ---------------------------------------------------------------------
  // The server object

  /** `nextResponse.headers.map(header => res.setHeader(header.name, header.value))`. */
  method ReplayHeaders(res: Response, hs: seq<NameValue>)
    modifies res
    ensures res.State() == ApplyHeaders(old(res.State()), hs)
  {
    var i := 0;
    while i < |hs|
      invariant 0 <= i <= |hs|
      invariant ApplyHeaders(res.State(), hs[i..]) == ApplyHeaders(old(res.State()), hs)
    {
      assert hs[i..][1..] == hs[i + 1..];
      res.SetHeader(hs[i].name, hs[i].value);
      i := i + 1;
    }
  }

  /** The module state of lib/server.js: the options it was started with,
      `scenarioEntriesMap`, and the tape directory. */
  class Proxy {
    const record: bool
    const proxyTarget: Option<string>
    const tapeDir: string
    const packageVersion: string
    var scenarios: map<string, seq<Entry>>
    var store: map<string, HarFile>

    /** Start-up: record mode empties the tape directory; playback mode
        loads every tape, keyed by its file name without `.har`. */
    constructor (record: bool, proxyTarget: Option<string>, tapeDir: string, packageVersion: string,
                 tapes: map<string, HarFile>)
      ensures this.record == record && this.proxyTarget == proxyTarget
      ensures this.tapeDir == tapeDir && this.packageVersion == packageVersion
      ensures scenarios == if record then map[] else map n | n in tapes :: tapes[n].log.entries
      ensures store == map[]
    {
      this.record, this.proxyTarget, this.tapeDir, this.packageVersion := record, proxyTarget, tapeDir, packageVersion;
      scenarios := if record then map[] else map n | n in tapes :: tapes[n].log.entries;
      store := map[];
    }

    method PlaybackProxy(name: string, req: Request, res: Response, canon: string -> Option<string>)
      returns (threw: bool)
      modifies this`scenarios, req, res
      ensures PlaybackStep(scenarios, Served(req.State(), res.State(), threw))
        == Playback(old(scenarios), proxyTarget, name, old(req.State()), old(res.State()), canon)
    {
      if name !in scenarios {
        res.statusCode := 404;
        res.End(Some(NotFoundMessage(name)));
        return false;
      }
      var entries := scenarios[name];
      if |entries| == 0 {
        res.statusCode := 400;
        res.End(Some(OverrunMessage(name, req.State(), proxyTarget)));
        return false;
      }
      var next := entries[0];
      scenarios := scenarios[name := entries[1..]];
      threw := Respond(next, name, req, res, canon);
    }

    /** The part of `playbackProxy` after the head entry is taken: validate
        the request against it, then replay its response. */
    method Respond(next: Entry, name: string, req: Request, res: Response, canon: string -> Option<string>)
      returns (threw: bool)
      modifies req, res
      ensures Served(req.State(), res.State(), threw)
        == Answer(next, proxyTarget, name, old(req.State()), old(res.State()), canon)
    {
      var ok := NormalizeRequest(req, canon);
      if !ok {
        return true;
      }
      var expected := next.request;
      if !Matches(proxyTarget, req.State(), expected) {
        res.statusCode := 400;
        res.End(Some(MismatchMessage(name, expected, req.State(), proxyTarget)));
        return false;
      }
      var p := next.response;
      res.statusCode := p.status;
      res.statusMessage := p.statusText;
      ReplayHeaders(res, p.headers);
      res.End(p.content.text);
      return false;
    }

    method RecordProxy(name: string, req: Request, res: Response, upstream: Upstream,
                       canon: string -> Option<string>) returns (forwarded: Forward, threw: bool)
      modifies this`store, req, res
      ensures RecordStep(store, req.State(), res.State(), forwarded, threw)
        == Record(old(store), tapeDir, packageVersion, proxyTarget, name, old(req.State()), old(res.State()),
                  upstream, canon)
    {
      forwarded := Forward(req.httpMethod, Render(proxyTarget) + req.url, req.headers, req.body);
      match upstream
      case TransportError(err) => {
        res.responseCode := Some(500);
        threw := true;
      }
      case Delivered(body) => {
        var path := TapePath(tapeDir, name);
        var har := ReadHarFile(store, path, packageVersion);
        var entry := CreateHarEntry(proxyTarget, body, req, res, canon);
        if entry.None? {
          return forwarded, true;
        }
        store := store[path := Appended(har, entry.value)];
        threw := false;
      }
    }

    method HandleRequest(req: Request, res: Response, body: Option<string>, upstream: Upstream,
                         canon: string -> Option<string>) returns (forwarded: Option<Forward>, threw: bool)
      modifies this`scenarios, this`store, req, res
      ensures HandleStep(scenarios, store, req.State(), res.State(), forwarded, threw)
        == Handle(record, tapeDir, packageVersion, proxyTarget, old(scenarios), old(store),
                  old(req.State()), old(res.State()), body, upstream, canon)
    {
      var route := Route(req.url);
      if route.None? {
        res.statusCode := 400;
        res.End(Some(NoScenarioMessage));
        return None, false;
      }
      var name := route.value.0;
      HandleRouted(record, tapeDir, packageVersion, proxyTarget, scenarios, store, req.State(), res.State(), body,
                   upstream, canon, name, route.value.1);
      ghost var prepared := Prepared(req.State(), route.value.1, body);
      req.url := route.value.1;
      req.headers := req.headers - {"host"};
      req.body := body;
      assert req.State() == prepared;
      if record {
        var f;
        f, threw := RecordProxy(name, req, res, upstream, canon);
        forwarded := Some(f);
      } else {
        threw := PlaybackProxy(name, req, res, canon);
        forwarded := None;
      }
    }
  }
}
