/**
 * EvalRequestController: one attempt of an eval request. Its pure policy is the
 * status-code dispatch table and the inter-try delay; its one imperative step,
 * serverDialog, updates the shared session from the response and then hands
 * the response to the handler registered for its status code. The transport
 * (HttpChannel) is a collaborator: what it returns is a parameter here.
 */
module Handlers {
  import opened Wrappers
  import opened Utf8

  // HttpURLConnection status codes the table registers.
  const HttpOk := 200
  const HttpBadRequest := 400
  const HttpUnauthorized := 401
  const HttpNotFound := 404
  const HttpInternalError := 500
  const HttpUnavailable := 503

  /** The response handlers; their implementations are not part of this model. */
  datatype HandlerTag =
    | UnrecognizedCodeHandler
    | ServiceUnavailableHandler
    | ServerExceptionHandler
    | UnauthorizedHandler
    | NotFoundCodeHandler
    | GoodQueryResponseHandler

  /** A status-code table with an optional catch-all entry. */
  datatype HandlerTable = HandlerTable(entries: map<int, HandlerTag>, fallback: Option<HandlerTag>)

  function AddDefaultHandler(table: HandlerTable, handler: HandlerTag): (t: HandlerTable)
    ensures t.entries == table.entries && t.fallback == Some(handler)
  {
    table.(fallback := Some(handler))
  }

  function AddHandler(table: HandlerTable, code: int, handler: HandlerTag): (t: HandlerTable)
    ensures t.fallback == table.fallback
    ensures code in t.entries && t.entries[code] == handler
    ensures forall c | c in table.entries && c != code :: c in t.entries && t.entries[c] == table.entries[c]
    ensures t.entries.Keys == table.entries.Keys + {code}
  {
    table.(entries := table.entries[code := handler])
  }

  /** The table the class's static initialiser registers, in the same order. */
  function EvalHandlers(): (t: HandlerTable)
    ensures t.entries.Keys == RegisteredCodes
    ensures t.fallback == Some(UnrecognizedCodeHandler)
  {
    var t0 := AddDefaultHandler(HandlerTable(map[], None), UnrecognizedCodeHandler);
    var t1 := AddHandler(t0, HttpUnavailable, ServiceUnavailableHandler);
    var t2 := AddHandler(t1, HttpInternalError, ServerExceptionHandler);
    var t3 := AddHandler(t2, HttpUnauthorized, UnauthorizedHandler);
    var t4 := AddHandler(t3, HttpNotFound, NotFoundCodeHandler);
    var t5 := AddHandler(t4, HttpBadRequest, NotFoundCodeHandler);
    AddHandler(t5, HttpOk, GoodQueryResponseHandler)
  }

  /** The codes with an entry of their own. */
  const RegisteredCodes: set<int> := {503, 500, 401, 404, 400, 200}

  /** findHandler over the eval table: the code's own entry, or the single default. */
  function FindHandler(code: int): (h: HandlerTag)
    ensures code == 503 ==> h == ServiceUnavailableHandler
    ensures code == 500 ==> h == ServerExceptionHandler
    ensures code == 401 ==> h == UnauthorizedHandler
    ensures code == 404 ==> h == NotFoundCodeHandler
    ensures code == 400 ==> h == NotFoundCodeHandler
    ensures code == 200 ==> h == GoodQueryResponseHandler
    ensures code !in RegisteredCodes ==> h == UnrecognizedCodeHandler
  {
    var table := EvalHandlers();
    if code in table.entries then table.entries[code] else table.fallback.value
  }

  /**
   * interTryDelay: no wait before the first try and none for a non-positive
   * delay; otherwise exactly the configured delay, whatever the try number.
   */
  function InterTryDelay(delay: int, currentTry: int): (r: int)
    ensures currentTry == 0 ==> r == 0
    ensures delay <= 0 ==> r == 0
    ensures currentTry != 0 && delay > 0 ==> r == delay
    ensures r == (if currentTry == 0 then 0 else Max(0, delay))
  {
    if currentTry == 0 || delay <= 0 then 0 else delay
  }

  function Max(a: int, b: int): int {
    if a < b then b else a
  }

  // ---------------------------------------------------------------------
  // One attempt

  /** The part of RequestOptions this controller reads. */
  datatype RequestOptions = RequestOptions(timeoutMillis: int)

  /** The metadata buildChannel sets on the HttpChannel. */
  datatype ChannelSpec = ChannelSpec(
    httpMethod: string,
    path: string,
    contentLength: int,
    timeoutMillis: int,
    contentType: string,
    closeOutputIfNoContentLength: bool)

  const FormContentType := "application/x-www-form-urlencoded"

  /** buildChannel: a POST whose content length is the body's Java length, with the options' timeout. */
  function BuildChannel(path: string, body: string, options: RequestOptions): (c: ChannelSpec)
    ensures c.httpMethod == "POST" && c.path == path
    ensures c.contentLength == Utf16Length(body)
    ensures IsAscii(body) ==> c.contentLength == |body| == |Encode(body)|
    ensures c.contentType == FormContentType
    ensures c.timeoutMillis == options.timeoutMillis
    ensures c.closeOutputIfNoContentLength
  {
    ChannelSpec("POST", path, Utf16Length(body), options.timeoutMillis, FormContentType, true)
  }

  /** What the transport reports for one attempt. */
  datatype ServerReply = ServerReply(code: int, message: string, serverVersion: string, cookies: map<string, string>)

  /** The observable steps of one attempt, in the order they happen. */
  datatype Effect =
    | OpenChannel(channel: ChannelSpec)
    | WriteQuery(query: string)
    | ReadResponseCode(code: int)
    | UpdateServerVersion(version: string, cookies: map<string, string>)  // the session just after the step
    | UpdateCookies(version: string, cookies: map<string, string>)        // the session just after the step
    | SetConnectionTimeout
    | Dispatch(handler: HandlerTag, code: int, serverVersion: string, cookies: map<string, string>)  // with the session as the handler sees it

  /**
   * The steps of serverDialog for a given channel, body and reply, starting
   * from a session holding the given cookies: each session step records the
   * whole session just after it, and the dispatch the session the handler is
   * given. So the version step still sees the old cookies, and the cookie step
   * already sees the new version.
   */
  function AttemptEffects(channel: ChannelSpec, body: string, reply: ServerReply, priorCookies: map<string, string>): seq<Effect> {
    var cookies := priorCookies + reply.cookies;
    [OpenChannel(channel), WriteQuery(body), ReadResponseCode(reply.code),
     UpdateServerVersion(reply.serverVersion, priorCookies), UpdateCookies(reply.serverVersion, cookies),
     SetConnectionTimeout, Dispatch(FindHandler(reply.code), reply.code, reply.serverVersion, cookies)]
  }

  /** Every dispatch is preceded by an update of the session's server version and of its cookies. */
  predicate SessionUpdatedBeforeDispatch(effects: seq<Effect>) {
    && (exists j | 0 <= j < |effects| :: effects[j].Dispatch?)
    && forall j | 0 <= j < |effects| && effects[j].Dispatch? ::
         && (exists i | 0 <= i < j :: effects[i].UpdateServerVersion?)
         && (exists i | 0 <= i < j :: effects[i].UpdateCookies?)
  }

  /** The shape of an attempt: steps 3 and 4 update the session, step 6 dispatches, no earlier step does. */
  predicate AttemptShape(e: seq<Effect>) {
    && |e| == 7
    && e[3].UpdateServerVersion? && e[4].UpdateCookies? && e[6].Dispatch?
    && !e[0].Dispatch? && !e[1].Dispatch? && !e[2].Dispatch?
    && !e[3].Dispatch? && !e[4].Dispatch? && !e[5].Dispatch?
  }

  lemma ShapeOrdersUpdatesFirst(e: seq<Effect>)
    requires AttemptShape(e)
    ensures SessionUpdatedBeforeDispatch(e)
    ensures forall j | 0 <= j < |e| - 1 :: !e[j].Dispatch?
  {
  }

  /**
   * Whatever the status code, error codes included, an attempt updates the
   * session's server version and cookies before it dispatches, and dispatches
   * exactly once, as its last step, to the handler the table gives for the
   * code, with a session that already holds the reply's version and cookies.
   */
  lemma AttemptUpdatesSessionFirst(channel: ChannelSpec, body: string, reply: ServerReply, priorCookies: map<string, string>)
    ensures SessionUpdatedBeforeDispatch(AttemptEffects(channel, body, reply, priorCookies))
    ensures var e := AttemptEffects(channel, body, reply, priorCookies);
            e[|e| - 1] == Dispatch(FindHandler(reply.code), reply.code, reply.serverVersion, priorCookies + reply.cookies) &&
            forall j | 0 <= j < |e| - 1 :: !e[j].Dispatch?
  {
    ShapeOrdersUpdatesFirst(AttemptEffects(channel, body, reply, priorCookies));
  }

  /** The conversation state the attempt updates. SessionImpl itself is not part of this model. */
  class Session {
    var serverVersion: string
    var cookies: map<string, string>

    method SetServerVersion(version: string)
      modifies this
      ensures serverVersion == version && cookies == old(cookies)
    {
      serverVersion := version;
    }

    /** readCookieValues: a cookie the response sets replaces one of the same name. */
    method ReadCookieValues(received: map<string, string>)
      modifies this
      ensures cookies == old(cookies) + received && serverVersion == old(serverVersion)
    {
      cookies := cookies + received;
    }
  }

  class EvalRequestController {
    const path: string
    const body: string

    constructor (path: string, body: string)
      ensures this.path == path && this.body == body
    {
      this.path := path;
      this.body := body;
    }

    /**
     * serverDialog: build the channel, write the query, read the status code,
     * update the session from the response, then dispatch to the handler.
     * Returns the handler dispatched to and the steps taken. The session
     * steps and the dispatch record the session as it is when they run; the
     * other steps change no modelled state.
     */
    method ServerDialog(session: Session, options: RequestOptions, reply: ServerReply)
      returns (handler: HandlerTag, effects: seq<Effect>)
      modifies session
      ensures session.serverVersion == reply.serverVersion
      ensures session.cookies == old(session.cookies) + reply.cookies
      ensures handler == FindHandler(reply.code)
      ensures effects == AttemptEffects(BuildChannel(path, body, options), body, reply, old(session.cookies))
    {
      var http := BuildChannel(path, body, options);
      var channelOpened := OpenChannel(http);
      // issueRequest
      var written := WriteQuery(body);
      var code := reply.code;
      var codeRead := ReadResponseCode(code);
      session.SetServerVersion(reply.serverVersion);
      var versioned := UpdateServerVersion(session.serverVersion, session.cookies);
      session.ReadCookieValues(reply.cookies);
      var cookied := UpdateCookies(session.serverVersion, session.cookies);
      var timed := SetConnectionTimeout;
      // findHandler(code).handleResponse(...), with the session as it now is
      handler := FindHandler(code);
      var dispatched := Dispatch(handler, code, session.serverVersion, session.cookies);
      effects := [channelOpened, written, codeRead, versioned, cookied, timed, dispatched];
    }
  }

  // ---------------------------------------------------------------------
  // Laws

  /** The handler for a code is determined as the table says, in both directions. */
  lemma HandlerPreimages(code: int)
    ensures FindHandler(code) == GoodQueryResponseHandler <==> code == HttpOk
    ensures FindHandler(code) == NotFoundCodeHandler <==> code == HttpNotFound || code == HttpBadRequest
    ensures FindHandler(code) == ServiceUnavailableHandler <==> code == HttpUnavailable
    ensures FindHandler(code) == ServerExceptionHandler <==> code == HttpInternalError
    ensures FindHandler(code) == UnauthorizedHandler <==> code == HttpUnauthorized
    ensures FindHandler(code) == UnrecognizedCodeHandler <==> code !in RegisteredCodes
  {
  }

  /** The delay does not grow with the attempt number: every try after the first waits the same. */
  lemma DelayIsFixed(delay: int, t1: int, t2: int)
    requires t1 != 0 && t2 != 0
    ensures InterTryDelay(delay, t1) == InterTryDelay(delay, t2)
    ensures 0 <= InterTryDelay(delay, t1) && (delay > 0 ==> InterTryDelay(delay, t1) <= delay)
  {
  }
}
