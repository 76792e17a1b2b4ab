/** The two objects of Node's `http` module that the server mutates: the
    incoming request (`req`) and the outgoing response (`res`). Each class
    has a value view, `State()`, in which the specifications are written. */
module Http {
  import opened Basics
  import opened Strings

  /** Header values are optional: `normalizeRequest` stores `undefined` for
      a header the client did not send. */
  datatype RequestState = RequestState(
    httpMethod: string,
    url: string,
    headers: map<string, Option<string>>,
    body: Option<string>,
    data: Option<string>)

  class Request {
    var httpMethod: string
    var url: string
    var headers: map<string, Option<string>>
    var body: Option<string>
    var data: Option<string>

    constructor (s: RequestState)
      ensures State() == s
    {
      httpMethod, url, headers, body, data := s.httpMethod, s.url, s.headers, s.body, s.data;
    }

    function State(): RequestState
      reads this
    {
      RequestState(httpMethod, url, headers, body, data)
    }
  }

  /** `responseCode` is the stray property the record path assigns; `ended`
      and `body` say whether and with what `end`/`send` finished the
      response. Header names are stored lower-cased, as Node does. */
  datatype ResponseState = ResponseState(
    statusCode: int,
    statusMessage: Option<string>,
    headers: map<string, string>,
    responseCode: Option<int>,
    ended: bool,
    body: Option<string>)

  /** A response as the server's request listener receives it. */
  function Fresh(): ResponseState {
    ResponseState(200, None, map[], None, false, None)
  }

  /** `res.getHeader(name)`: case-insensitive. */
  function HeaderOf(s: ResponseState, name: string): (r: Option<string>)
    ensures r.Some? <==> Lower(name) in s.headers
    ensures r.Some? ==> r.value == s.headers[Lower(name)]
  {
    if Lower(name) in s.headers then Some(s.headers[Lower(name)]) else None
  }

  function SetHeaderOn(s: ResponseState, name: string, value: string): (r: ResponseState)
    ensures r.headers.Keys == s.headers.Keys + {Lower(name)} && r.headers[Lower(name)] == value
    ensures forall k :: k in s.headers && k != Lower(name) ==> r.headers[k] == s.headers[k]
  {
    s.(headers := s.headers[Lower(name) := value])
  }

  function EndWith(s: ResponseState, body: Option<string>): ResponseState {
    s.(ended := true, body := body)
  }

  class Response {
    var statusCode: int
    var statusMessage: Option<string>
    var headers: map<string, string>
    var responseCode: Option<int>
    var ended: bool
    var body: Option<string>

    constructor (s: ResponseState)
      ensures State() == s
    {
      statusCode, statusMessage, headers := s.statusCode, s.statusMessage, s.headers;
      responseCode, ended, body := s.responseCode, s.ended, s.body;
    }

    function State(): ResponseState
      reads this
    {
      ResponseState(statusCode, statusMessage, headers, responseCode, ended, body)
    }

    /** `res.setHeader(name, value)`. */
    method SetHeader(name: string, value: string)
      modifies this
      ensures State() == SetHeaderOn(old(State()), name, value)
    {
      headers := headers[Lower(name) := value];
    }

    /** `res.end(body)`, and `res.send(body)` on the record error path. */
    method End(text: Option<string>)
      modifies this
      ensures State() == EndWith(old(State()), text)
    {
      ended, body := true, text;
    }
  }
}
