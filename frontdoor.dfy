/**
 * The front door of packages/lambda/src/http.ts: `handleRequest`, a fixed
 * ladder of guards in front of one fire-and-forget invocation of the
 * worker function, and `handler`, which turns any fault into a 500.
 *
 * Process configuration (`process.env`), the clock and the outcome of
 * `client.send` are parameters; the invoke commands that were sent are
 * part of the result.
 */
module FrontDoor {
  import opened Host
  import opened Verifier

  const TimestampHeader: string := "x-slack-request-timestamp"
  const SignatureHeader: string := "x-slack-signature"
  const ResponseUrlField: string := "response_url"
  const Acknowledgement: string := "Accepted!"

  /** The two configuration values read from the environment; either may be unset. */
  datatype Config = Config(signingSecret: Option<string>, workerFunctionName: Option<string>)

  /** The parts of an API Gateway (HTTP API) event the gate looks at. */
  datatype Request = Request(
    httpMethod: string,
    headers: map<string, string>,
    body: Option<string>,
    isBase64Encoded: bool
  )

  datatype Response = Response(statusCode: int, body: Option<string>)

  /** The only state handed to the worker: the callback URL. */
  datatype DispatchJob = DispatchJob(responseUrl: string)

  /** An `InvokeCommand` given to `client.send`. */
  datatype InvokeCommand = InvokeCommand(functionName: string, payload: DispatchJob, invocationType: string)

  /** How the asynchronous `handleRequest` settles, with the commands it sent on the way. */
  datatype Completion =
    | Resolved(response: Response, sent: seq<InvokeCommand>)
    | Rejected(sent: seq<InvokeCommand>)

  /** What `handler` returns to API Gateway, with the commands sent while computing it. */
  datatype Reply = Reply(response: Response, sent: seq<InvokeCommand>)

  function Status(code: int): (r: Response)
    ensures r.statusCode == code && r.body.None?
  {
    Response(code, None)
  }

  function Header(req: Request, name: string): (v: Option<string>)
    ensures v.Some? <==> name in req.headers
    ensures v.Some? ==> v.value == req.headers[name]
  {
    if name in req.headers then Some(req.headers[name]) else None
  }

  /** The body text the checks see: base64-decoded when the transport says so. */
  function DecodedBody(rt: Runtime, raw: string, isBase64Encoded: bool): (text: string)
    ensures isBase64Encoded ==> text == rt.base64Decode(raw)
    ensures !isBase64Encoded ==> text == raw
  {
    if isBase64Encoded then rt.base64Decode(raw) else raw
  }

  /** The command that hands the callback URL to the worker, as an event (no waiting). */
  function WorkerCommand(functionName: string, responseUrl: string): (cmd: InvokeCommand)
    ensures cmd.functionName == functionName && cmd.payload.responseUrl == responseUrl
    ensures cmd.invocationType == "Event"
  {
    InvokeCommand(functionName, DispatchJob(responseUrl), "Event")
  }

  /**
   * `handleRequest`. The guards run in source order and the first failing one decides
   * the status; when all pass, one command is sent, and `sendOk` says whether
   * `client.send` returned (200 "Accepted!") or threw (the promise is rejected).
   */
  function HandleRequest(rt: Runtime, cfg: Config, req: Request, nowMs: int, sendOk: bool): (c: Completion)
    ensures |c.sent| <= 1
    ensures c.Rejected? ==> !sendOk && |c.sent| == 1
    ensures c.Resolved? ==> (c.response.statusCode == 200 <==> |c.sent| == 1)
    ensures c.Resolved? && c.response.statusCode != 200 ==> c.response.body.None?
    ensures c.Resolved? && c.response.statusCode == 200 ==> c.response.body == Some(Acknowledgement)
  {
    if cfg.signingSecret.None? then Resolved(Status(500), [])
    else if req.httpMethod != "POST" then Resolved(Status(405), [])
    else if req.body.None? then Resolved(Status(422), [])
    else
      var body := DecodedBody(rt, req.body.value, req.isBase64Encoded);
      var timestamp := Header(req, TimestampHeader);
      var signature := Header(req, SignatureHeader);
      if timestamp.None? || signature.None? then Resolved(Status(401), [])
      else if !VerifySlackSignature(rt, cfg.signingSecret.value, timestamp.value, body, signature.value, nowMs)
      then Resolved(Status(403), [])
      else
        var responseUrl := rt.formGet(body, ResponseUrlField);
        if responseUrl.None? then Resolved(Status(422), [])
        else if cfg.workerFunctionName.None? then Resolved(Status(500), [])
        else
          var cmd := WorkerCommand(cfg.workerFunctionName.value, responseUrl.value);
          if sendOk then Resolved(Response(200, Some(Acknowledgement)), [cmd])
          else Rejected([cmd])
  }

  /** `handler`: the resolved response unchanged, or a bare 500 when `handleRequest` threw. */
  function Handler(rt: Runtime, cfg: Config, req: Request, nowMs: int, sendOk: bool): (r: Reply)
    ensures r.response.statusCode in {200, 401, 403, 405, 422, 500}
    ensures |r.sent| <= 1
    ensures r.response.statusCode == 200 <==> |r.sent| == 1 && sendOk
  {
    match HandleRequest(rt, cfg, req, nowMs, sendOk)
    case Resolved(res, sent) => Reply(res, sent)
    case Rejected(sent) => Reply(Status(500), sent)
  }

  /**
   * Every guard of the ladder passes, stated as one conjunction rather than a ladder:
   * the secret and worker name are configured, the request is a POST with a body and
   * both signature headers, the signature verifies over the decoded body, and that
   * body carries a `response_url`.
   */
  ghost predicate AllGuardsPass(rt: Runtime, cfg: Config, req: Request, nowMs: int)
  {
    && cfg.signingSecret.Some?
    && cfg.workerFunctionName.Some?
    && req.httpMethod == "POST"
    && req.body.Some?
    && TimestampHeader in req.headers
    && SignatureHeader in req.headers
    && VerifySlackSignature(rt, cfg.signingSecret.value, req.headers[TimestampHeader],
                            DecodedBody(rt, req.body.value, req.isBase64Encoded),
                            req.headers[SignatureHeader], nowMs)
    && rt.formGet(DecodedBody(rt, req.body.value, req.isBase64Encoded), ResponseUrlField).Some?
  }

  /**
   * The first failing guard decides the status: secret unset 500, not POST 405, no body 422,
   * a signature header missing 401, signature rejected 403, no `response_url` 422,
   * worker name unset 500. No command is sent on any of these paths.
   */
  lemma GuardOrder(rt: Runtime, cfg: Config, req: Request, nowMs: int, sendOk: bool)
    ensures var r := Handler(rt, cfg, req, nowMs, sendOk);
      && (cfg.signingSecret.None? ==> r == Reply(Status(500), []))
      && (cfg.signingSecret.Some? && req.httpMethod != "POST" ==> r == Reply(Status(405), []))
      && (cfg.signingSecret.Some? && req.httpMethod == "POST" && req.body.None?
          ==> r == Reply(Status(422), []))
      && (cfg.signingSecret.Some? && req.httpMethod == "POST" && req.body.Some?
          && (TimestampHeader !in req.headers || SignatureHeader !in req.headers)
          ==> r == Reply(Status(401), []))
      && (cfg.signingSecret.Some? && req.httpMethod == "POST" && req.body.Some?
          && TimestampHeader in req.headers && SignatureHeader in req.headers
          && !VerifySlackSignature(rt, cfg.signingSecret.value, req.headers[TimestampHeader],
                                   DecodedBody(rt, req.body.value, req.isBase64Encoded),
                                   req.headers[SignatureHeader], nowMs)
          ==> r == Reply(Status(403), []))
      && (cfg.signingSecret.Some? && req.httpMethod == "POST" && req.body.Some?
          && TimestampHeader in req.headers && SignatureHeader in req.headers
          && VerifySlackSignature(rt, cfg.signingSecret.value, req.headers[TimestampHeader],
                                  DecodedBody(rt, req.body.value, req.isBase64Encoded),
                                  req.headers[SignatureHeader], nowMs)
          && rt.formGet(DecodedBody(rt, req.body.value, req.isBase64Encoded), ResponseUrlField).None?
          ==> r == Reply(Status(422), []))
      && (cfg.signingSecret.Some? && req.httpMethod == "POST" && req.body.Some?
          && TimestampHeader in req.headers && SignatureHeader in req.headers
          && VerifySlackSignature(rt, cfg.signingSecret.value, req.headers[TimestampHeader],
                                  DecodedBody(rt, req.body.value, req.isBase64Encoded),
                                  req.headers[SignatureHeader], nowMs)
          && rt.formGet(DecodedBody(rt, req.body.value, req.isBase64Encoded), ResponseUrlField).Some?
          && cfg.workerFunctionName.None?
          ==> r == Reply(Status(500), []))
  {
  }

  /**
   * A command is sent exactly when every guard passes, and then it is the one command
   * carrying the decoded body's `response_url` to the configured worker as an event.
   */
  lemma SendIffAllGuardsPass(rt: Runtime, cfg: Config, req: Request, nowMs: int, sendOk: bool)
    ensures var r := Handler(rt, cfg, req, nowMs, sendOk);
      && (|r.sent| == 1 <==> AllGuardsPass(rt, cfg, req, nowMs))
      && (AllGuardsPass(rt, cfg, req, nowMs) ==>
            r.sent == [WorkerCommand(cfg.workerFunctionName.value,
                         rt.formGet(DecodedBody(rt, req.body.value, req.isBase64Encoded),
                                    ResponseUrlField).value)])
  {
  }

  /**
   * Dispatch iff 200: the reply is 200 "Accepted!" exactly when every guard passed and
   * the single invoke went through; any other reply went with no completed invoke.
   */
  lemma DispatchIffAccepted(rt: Runtime, cfg: Config, req: Request, nowMs: int, sendOk: bool)
    ensures var r := Handler(rt, cfg, req, nowMs, sendOk);
      && ((r.response == Response(200, Some(Acknowledgement)))
          <==> AllGuardsPass(rt, cfg, req, nowMs) && sendOk)
      && (r.response.statusCode != 200 ==> r.sent == [] || !sendOk)
  {
  }

  /** A failing invoke is the one fault `handleRequest` can raise, and it becomes a 500. */
  lemma InvokeFailureIs500(rt: Runtime, cfg: Config, req: Request, nowMs: int)
    requires AllGuardsPass(rt, cfg, req, nowMs)
    ensures HandleRequest(rt, cfg, req, nowMs, false).Rejected?
    ensures Handler(rt, cfg, req, nowMs, false).response == Status(500)
  {
  }

  /** `handler` passes a resolved response through unchanged. */
  lemma HandlerPassesResolved(rt: Runtime, cfg: Config, req: Request, nowMs: int, sendOk: bool)
    requires HandleRequest(rt, cfg, req, nowMs, sendOk).Resolved?
    ensures Handler(rt, cfg, req, nowMs, sendOk).response
            == HandleRequest(rt, cfg, req, nowMs, sendOk).response
  {
  }

  /**
   * The signature check and the `response_url` lookup both see the decoded body:
   * a base64 request is handled exactly as the same request with its body decoded.
   */
  lemma DecodedBodyEverywhere(rt: Runtime, cfg: Config, req: Request, nowMs: int, sendOk: bool)
    requires req.body.Some? && req.isBase64Encoded
    ensures Handler(rt, cfg, req, nowMs, sendOk)
            == Handler(rt, cfg, req.(body := Some(rt.base64Decode(req.body.value)), isBase64Encoded := false),
                       nowMs, sendOk)
  {
  }

  /**
   * The worker name is checked last, after user input: with it unset, a request that
   * fails an earlier guard still gets that guard's status (405, 422, 401, 403 or 422)
   * rather than the configuration 500.
   */
  lemma WorkerNameCheckedLast(rt: Runtime, cfg: Config, req: Request, nowMs: int, sendOk: bool)
    requires cfg.signingSecret.Some? && cfg.workerFunctionName.None?
    ensures var r := Handler(rt, cfg, req, nowMs, sendOk).response;
      && (req.httpMethod != "POST" ==> r == Status(405))
      && (req.httpMethod == "POST" && req.body.None? ==> r == Status(422))
      && (req.httpMethod == "POST" && req.body.Some?
          && (TimestampHeader !in req.headers || SignatureHeader !in req.headers)
          ==> r == Status(401))
      && (req.httpMethod == "POST" && req.body.Some?
          && TimestampHeader in req.headers && SignatureHeader in req.headers
          && !VerifySlackSignature(rt, cfg.signingSecret.value, req.headers[TimestampHeader],
                                   DecodedBody(rt, req.body.value, req.isBase64Encoded),
                                   req.headers[SignatureHeader], nowMs)
          ==> r == Status(403))
      && (req.httpMethod == "POST" && req.body.Some?
          && TimestampHeader in req.headers && SignatureHeader in req.headers
          && VerifySlackSignature(rt, cfg.signingSecret.value, req.headers[TimestampHeader],
                                  DecodedBody(rt, req.body.value, req.isBase64Encoded),
                                  req.headers[SignatureHeader], nowMs)
          && rt.formGet(DecodedBody(rt, req.body.value, req.isBase64Encoded), ResponseUrlField).None?
          ==> r == Status(422))
  {
  }

  /** Which console stream `handler` logs a response to. */
  datatype Severity = Info | Error

  /**
   * The severity as written: `res.statusCode ?? 0 >= 400` groups as
   * `res.statusCode ?? (0 >= 400)`, which is truthy for every nonzero status.
   */
  function LogSeverityAsWritten(res: Response): Severity
  {
    if res.statusCode != 0 then Error else Info
  }

  /** The evidently intended severity: `(res.statusCode ?? 0) >= 400`. */
  function LogSeverity(res: Response): Severity
  {
    if res.statusCode >= 400 then Error else Info
  }

  /** As written, every reply of the handler, including 200 "Accepted!", is logged as an error. */
  lemma SeverityAsWrittenAlwaysError(rt: Runtime, cfg: Config, req: Request, nowMs: int, sendOk: bool)
    ensures LogSeverityAsWritten(Handler(rt, cfg, req, nowMs, sendOk).response) == Error
    ensures LogSeverityAsWritten(Response(200, Some(Acknowledgement))) == Error
  {
  }

  /** With the intended grouping, exactly the rejected requests are logged as errors. */
  lemma SeverityErrorIffRejected(rt: Runtime, cfg: Config, req: Request, nowMs: int, sendOk: bool)
    ensures var r := Handler(rt, cfg, req, nowMs, sendOk);
      LogSeverity(r.response) == Error <==> r.response.statusCode != 200
  {
  }
}
