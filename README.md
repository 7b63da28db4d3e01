# Slack request gate: a Dafny model

This project models the inbound-request gate of the Slack slash-command
back end in `packages/lambda/src/http.ts`. The gate has two parts.

- **Signature verification** (`verifySlackSignature`). It rejects a
  timestamp that does not parse to a finite number or lies more than 300 s
  from now. It signs the base string `"v0:" + timestamp + ":" + body` with
  HMAC-SHA256, keyed by the signing secret, and prefixes `"v0="` to the hex
  tag. It then compares that with the signature header byte for byte, after
  a length check.
- **The front door** (`handleRequest` and `handler`). A fixed ladder of
  guards maps each request shape to a status code. When every guard passes,
  one fire-and-forget invoke of the worker function carries the callback URL,
  and the reply is 200 `Accepted!`. The outer handler turns a thrown invoke
  into a 500.

Files:

- `host.dfy` (module `Host`) holds the runtime primitives the gate calls
  as a record of functions (`Runtime`). It also holds a concrete model of hex
  encoding (`digest("hex")`) with its inverse.
- `verifier.dfy` (module `Verifier`) holds the verifier and its properties.
- `frontdoor.dfy` (module `FrontDoor`) holds the guard ladder, the handler,
  and the properties about status codes and dispatch.

Some inputs are parameters rather than ambient state.

- `process.env.SLACK_SIGNING_SECRET` and `process.env.HTTP_WORKER_FUNCTION_NAME`
  are a `Config` of two optional strings.
- `Date.now()` is the parameter `nowMs`. `NowSeconds` reproduces
  `Math.floor(nowMs / 1000)`.
- Whether `client.send` returns or throws is the parameter `sendOk`. The
  commands passed to `client.send` are part of every result (`sent`).
- `Number(...)` together with `Number.isFinite`, HMAC-SHA256, UTF-8 encoding
  (`Buffer.from(s, "utf8")`), base64 decoding and `URLSearchParams.get` are
  fields of `Runtime`. Every property holds for all such functions unless the
  lemma names a hypothesis. There are two hypotheses:
  - `Injective(rt.utf8)`: distinct strings encode to distinct bytes. This
    holds for UTF-8 over Dafny's `char`, which is a Unicode scalar value.
  - `DigestIsSha256Sized(rt)`: the HMAC tag is 32 bytes.

The model follows the code where a reader might expect otherwise:

- The worker-name configuration check comes after the `response_url` check
  (http.ts:66), not before any input is read. `WorkerNameCheckedLast` states
  one consequence.
- The replay window is inclusive. A timestamp exactly 300 s away passes
  (`>` at http.ts:23).
- The test file imports `verifySlackSignature`, but http.ts does not export
  it. The tests describe the intended behaviour of the verifier.

## Model

| member | source | states |
|---|---|---|
| `Verifier.NowSeconds` | packages/lambda/src/http.ts:21 | the clock in whole seconds is the floor of the milliseconds divided by 1000 |
| `Verifier.BaseString` | packages/lambda/src/http.ts:25 | the base string is "v0:", then the unparsed timestamp text, then ":", then the body, each at its fixed position |
| `Verifier.ExpectedSignature` | packages/lambda/src/http.ts:27-30 | the expected signature is "v0=" followed by lower-case hex that decodes to the HMAC-SHA256 tag of the base string keyed by the secret |
| `Verifier.VerifySlackSignature` | packages/lambda/src/http.ts:10-36 | the verifier accepts exactly when the timestamp parses, lies within 300 s of now, and the signature's UTF-8 bytes equal the expected signature's, so the length check never changes the result; the function is total |
| `Verifier.BadTimestampRejected` | packages/lambda/src/http.ts:22-23 | a timestamp that does not parse is rejected whatever the secret, body and signature |
| `Verifier.ReplayRejected` | packages/lambda/src/http.ts:21-23 | a timestamp more than 300 s from now is rejected even with the correct signature |
| `Verifier.WindowBoundaryAccepted` | packages/lambda/src/http.ts:23 | a timestamp exactly 300 s before or after now passes the window and a correct signature is accepted |
| `Verifier.AcceptsExactlyExpected` | packages/lambda/src/http.ts:25-35 | inside the window the verifier returns true if and only if the signature equals the expected signature |
| `Verifier.LengthMismatchRejected` | packages/lambda/src/http.ts:32-34 | a signature whose byte length differs from the expected one is rejected |
| `Verifier.MalformedSignatureRejected` | packages/lambda/src/http.ts:27-35 | with a 32-byte HMAC, a signature that is not "v0=" plus 64 lower-case hex digits is rejected |
| `Verifier.InvalidSignatureRejected` | packages/lambda/test/verifySlackSignature.spec.ts:27-36 | the signature "v0=invalidsignature" is rejected for every secret, timestamp, body, time and HMAC, since its fourth character is not a hex digit |
| `Verifier.AcceptedSignatureCarriesTag` | packages/lambda/src/http.ts:27-35 | an accepted signature is "v0=" followed by lower-case hex that decodes to the HMAC-SHA256 tag of the base string |
| `Verifier.SingleCharFlipRejected` | packages/lambda/src/http.ts:30-35 | changing any one character of the correct signature makes verification fail |
| `Verifier.BaseStringInjective` | packages/lambda/src/http.ts:25 | for colon-free timestamps the base string determines both the timestamp text and the body |
| `Host.Hex` | packages/lambda/src/http.ts:27-29 | the hex text of a digest is two lower-case hex digits per byte |
| `Host.Unhex` | packages/lambda/src/http.ts:29 | decoding well-formed hex text yields half as many bytes as characters |
| `Host.UnhexHex` | packages/lambda/src/http.ts:29 | decoding the hex text of any digest gives back the digest |
| `Host.HexUnhex` | packages/lambda/src/http.ts:29 | encoding decoded well-formed hex text gives back the text |
| `Host.HexInjective` | packages/lambda/src/http.ts:29 | distinct digests have distinct hex text |
| `FrontDoor.HandleRequest` | packages/lambda/src/http.ts:40-74 | at most one invoke is sent; a resolved 200 comes with exactly one invoke and the body "Accepted!", every other resolved status with none and no body; the promise rejects only when the invoke fails |
| `FrontDoor.Handler` | packages/lambda/src/http.ts:76-91 | the status is one of 200, 401, 403, 405, 422 and 500, and it is 200 exactly when one invoke was sent and it succeeded |
| `FrontDoor.GuardOrder` | packages/lambda/src/http.ts:45-66 | the first failing guard decides the reply with no invoke: secret unset 500, not POST 405, no body 422, missing header 401, bad signature 403, no response_url 422, worker name unset 500 |
| `FrontDoor.SendIffAllGuardsPass` | packages/lambda/src/http.ts:63-72 | an invoke is sent exactly when every guard passes, and it is the one command carrying the decoded body's response_url to the worker |
| `FrontDoor.DispatchIffAccepted` | packages/lambda/src/http.ts:63-73 | the reply is 200 "Accepted!" if and only if every guard passes and the invoke succeeds |
| `FrontDoor.InvokeFailureIs500` | packages/lambda/src/http.ts:72-90 | when every guard passes and the invoke throws, the request promise rejects and the handler replies 500 |
| `FrontDoor.HandlerPassesResolved` | packages/lambda/src/http.ts:81-86 | the handler returns a resolved response unchanged |
| `FrontDoor.DecodedBodyEverywhere` | packages/lambda/src/http.ts:49-64 | a base64 request is handled exactly like the same request with its body decoded, for both the signature and the response_url |
| `FrontDoor.WorkerNameCheckedLast` | packages/lambda/src/http.ts:47-66 | with the worker name unset, a request failing an earlier guard still gets that guard's 405, 422, 401, 403 or 422 rather than the configuration 500 |
| `FrontDoor.SeverityAsWrittenAlwaysError` | packages/lambda/src/http.ts:83-85 | as written, every handler reply, 200 included, goes to the error log |
| `FrontDoor.SeverityErrorIffRejected` | packages/lambda/src/http.ts:83-85 | with the intended grouping, a reply is logged as an error exactly when it is not 200 |

## Left out

- Real HMAC-SHA256, UTF-8 encoding and base64 decoding are foreign crypto and encoding routines. They are fields of `Runtime`. The digest is assumed 32 bytes only where a lemma names `DigestIsSha256Sized`.
- `timingSafeEqual` (http.ts:35) is byte-sequence equality. Its constant running time cannot be expressed by a functional model.
- JavaScript `Number(...)` and float arithmetic (http.ts:22-23): parsing is an abstract `parseTs` returning an optional integer. `Number("")` being 0, the forms `"1e3"`, `"0x10"` and `"1.5"`, and fractional timestamps are out of scope.
- `URLSearchParams` form decoding (http.ts:63-64) is the abstract `formGet`.
- Logging (`console.info` at http.ts:52, `console.info`/`console.error` at http.ts:83-88) is I/O. Only the choice of log stream is modelled, as a finding below. `Handler` itself does not log.
- JSON serialisation of the payload (http.ts:69) is I/O plumbing. The payload is the `DispatchJob` record it serialises.
- `Injective(rt.utf8)`: JavaScript strings can hold lone surrogates, which UTF-8 encoding replaces. Dafny strings cannot hold them, so this case is not modelled.
- The worker (`packages/lambda/src/worker.ts`) is network and timer plumbing over a fixed list of four messages. It is not part of this model.
- The infrastructure code (`packages/cdk/lib/lambda.ts`, `packages/cdk/bin/cdk.ts`) provisions resources and has no protocol logic. It is not part of this model.
- Faults other than a failing invoke cannot arise in `handleRequest` for well-typed events. Malformed events are not modelled.

## Findings

| source | as written | input that shows it | evidently intended | confidence | as-written member | corrected member |
|---|---|---|---|---|---|---|
| packages/lambda/src/http.ts:83 | `res.statusCode ?? 0 >= 400` groups as `res.statusCode ?? (0 >= 400)`, so every nonzero status goes to `console.error` | the 200 "Accepted!" reply is logged as an error | `(res.statusCode ?? 0) >= 400`: error log only for rejected requests | high (operator precedence; not executed) | `FrontDoor.LogSeverityAsWritten`, `FrontDoor.SeverityAsWrittenAlwaysError` | `FrontDoor.LogSeverity`, `FrontDoor.SeverityErrorIffRejected` |
