# testkit mock server and limiting I/O helpers, modelled in Dafny

This project models the stateful core of `testkit`, a Go test-support library:

- the scripted mock HTTP server (`HTTPServer`): a FIFO queue of scripted responses, the list of
  recorded requests, the `responseCnt` check made at test cleanup, and the accessors that read the
  recorded requests back;
- `CloneHTTPRequest`, which reads a single-use request body once and gives both the original
  request and the clone their own reader over the same bytes;
- `ErrReader` and `ErrWriter`, which let at most `n` bytes through and then report an error;
- `ReadAll`, `ReadAllString` and `ReadAllFromStart`, which fail the test instead of returning an
  error.

The test handle `T` becomes `Testing.TestLog`: a log of messages, a `failed` flag (set by
`Errorf`, `Fatal`), a `stopped` flag (set by `Fatal`, which is Log followed by FailNow) and a stack
of cleanup hooks that are called last-added-first. A `Fatal` ends the current helper call; the
value the helper returns after it is the one the Go code returns (`nil`, an empty value).

Readers and writers are in-memory stand-ins (`Streams.Reader` for `bytes.Reader`, with faults that
can be switched on for the end of data, `Close` and seeks; `Streams.Writer` for `bytes.Buffer`,
optionally with a bounded room). `ReadAllFrom` is `ioutil.ReadAll` over such a reader. A request
is a `Http.Request` object whose `body` field is such a reader (or nil).

Modules: `Wrappers`, `Errors`, `Testing` (t.go, errors.go), `Streams`, `ErrReading`
(err_reader.go), `ErrWriting` (err_writer.go), `IoHelpers` (io.go), `Http` (http.go),
`MockServer` (http_server.go), `ResponseCount` (the teardown counters, see Findings) and
`Scenarios` (client code that replays the package's own tests for all inputs).

## Model

| member | source | states |
|---|---|---|
| `Testing.TestLog.Cleanup` | t.go:7-10 | a hook is pushed on the cleanup stack |
| `Testing.TestLog.Errorf` | t.go:15-16 | the message is logged and the test marked failed; it is not stopped |
| `Testing.TestLog.Fatal` | t.go:18-22 | the message is logged, the test marked failed and stopped |
| `Testing.TestLog.NextCleanup` | t.go:7-9 | the hook taken is the head of the call order of those registered; the rest keep their order |
| `Testing.CallOrderIsReversed` | t.go:7-9 | cleanups are called last added, first called: the ith call is the ith hook from the end |
| `ErrReading.Window` | err_reader.go:33-36 | one call never passes on more than the buffer, nor more than the limit leaves |
| `ErrReading.ErrReader.constructor` | err_reader.go:20-29 | a nil error becomes ErrTestError, any other is kept; nothing read yet |
| `ErrReading.ErrReader.Read` | err_reader.go:32-46 | the wrapped reader is asked for at most n - off bytes, off grows by exactly what it gave and stays within n, its error is returned as it is, reaching the limit returns the configured error with the bytes, below it no error |
| `ErrWriting.ErrWriter.constructor` | err_writer.go:20-29 | a nil error becomes ErrTestError, any other is kept; nothing written yet |
| `ErrWriting.ErrWriter.Write` | err_writer.go:33-47 | the wrapped writer receives only the prefix of p the limit allows, off grows by what it accepted, its error is returned as it is, reaching the limit returns the configured error, below it no error |
| `Streams.ReadAllFrom` | io.go:12 | reading to the end yields every remaining byte and leaves none; the end error is reported unless it is EOF |
| `IoHelpers.ReadAll` | io.go:9-18 | every remaining byte, or a fatal failure with the read error and nil |
| `IoHelpers.ReadAllString` | io.go:20-25 | the string form of ReadAll on the same reader (empty on failure) |
| `IoHelpers.ReadAllFromStart` | io.go:27-52 | the whole content from offset 0 whatever the position; the position is restored, also when the read fails; a failed seek before the read is fatal, gives nil and moves nothing |
| `Http.CloneHTTPRequest` | http.go:11-34 | with a body: the body is read once and closed, original and clone each get a fresh reader over exactly the bytes read; a read or close error is fatal and gives nil; without a body nothing is read; the clone's URL host is the request's Host and its scheme the original's |
| `MockServer.HTTPServer.constructor` | http_server.go:32-81 | an open server with nothing scripted or recorded, whose cleanup is registered with the test |
| `MockServer.HTTPServer.Rsp` | http_server.go:83-96 | the response is appended at the tail; responseCnt becomes the number of responses pending |
| `MockServer.HTTPServer.Next` | http_server.go:166-177 | the head of the script is returned and the rest keeps its order; an empty script is fatal with "no more responses to give" |
| `MockServer.HTTPServer.Handle` | http_server.go:54-69 | exactly one response is taken and, unless cloning fails, exactly one request recorded, with the server's scheme, the request's Host and the body it carried; the reply is the scripted status and body, empty for a nil body; the live request keeps its URL and can still be read in full; only an open listener delivers requests |
| `MockServer.HTTPServer.RecordClone` | http_server.go:59-62 | the request is cloned, the clone gets the server's scheme and is recorded, and the live request gets a fresh reader over the same bytes; a body that cannot be drained is fatal and records nothing |
| `MockServer.HTTPServer.Record` | http_server.go:62 | the clone is appended to the recorded requests, which stay owned by the server, each with its own reader |
| `MockServer.HTTPServer.ReqCount` | http_server.go:112-113 | the number of recorded requests |
| `MockServer.HTTPServer.Request` | http_server.go:101-110 | for 0 <= n < count a fresh clone equal to the nth recorded request, outside the server's own objects, so changing it leaves the recorded request as it was; any other n is fatal with "no request with index n recorded" and gives nil |
| `MockServer.HTTPServer.Values` | http_server.go:115-124 | the query of the nth recorded request; out of range fatal, empty values |
| `MockServer.HTTPServer.Body` | http_server.go:126-147 | the nth recorded body, left readable again (the recorded requests do not change); out of range fatal, nil |
| `MockServer.HTTPServer.BodyString` | http_server.go:149-153 | the string form of Body(n) |
| `MockServer.HTTPServer.Headers` | http_server.go:155-164 | the headers of the nth recorded request; out of range fatal, nil |
| `MockServer.HTTPServer.Close` | http_server.go:179-188 | the listener is closed and both lists emptied; responseCnt is kept; nil is returned |
| `MockServer.HTTPServer.RunCleanup` | http_server.go:41-52 | a request count other than responseCnt is a soft failure "expected responseCnt requests got count"; the server is closed in any case |
| `ResponseCount.UnusedResponseUnreported` | http_server.go:89-94 | as written, a response added after a request and never used passes the cleanup check |
| `ResponseCount.UsedScriptReported` | http_server.go:89-94 | as written, a script used up in full fails the cleanup check when a response was added after a request |
| `ResponseCount.CountedBalance` | http_server.go:27 | counting every added response, the counter equals served plus pending |
| `ResponseCount.CountedReportsUnused` | http_server.go:32-34 | counting every added response, the cleanup check fails exactly when a scripted response was never used |
| `ResponseCount.AsWrittenExactWhenScriptedFirst` | http_server.go:44 | when every response is scripted before the first request, the code as written counts as intended |
| `Scenarios.SmokeTest` | http_server_test.go:16-36 | one 200 response and one POST: the scripted reply, one request recorded, its body read twice the same, its query the one sent |
| `Scenarios.SmokeTestRequest` | http_server_test.go:37-39 | Request(0) has the server's scheme and host in its URL and the body sent; the original request is still readable |
| `Scenarios.RequestCloneIsIndependent` | http_server.go:101-110 | draining and rewriting the clone Request(0) returned leaves the recording intact: a second Request(0) has the original URL and body |
| `Scenarios.EmptyResponseBody` | http_server_test.go:42-63 | a nil scripted body gives the status and an empty body, and the request is recorded with its body |
| `Scenarios.CountMismatchAtCleanup` | http_server_test.go:65-88 | two responses, one request: the registered cleanup logs "expected 2 requests got 1" without stopping the test and closes the server |
| `Scenarios.ScriptedSession` | http_server.go:83-88 | for any script and requests: the ith request gets the ith response, every served request is recorded with its body, and the request after the last response is fatal |
| `Scenarios.ReadOnceThroughLimit` | err_reader_test.go:13-41 | one read gets the first bytes up to buffer size and limit, with the limit error when the limit is reached and none below it |
| `Scenarios.ReadAllThroughLimit` | err_reader_test.go:59-71 | reading all through the limiter gives the first min(n, len) bytes, then the limit error unless the data ran out below the limit |
| `Scenarios.WriteAllThroughLimit` | err_writer_test.go:12-69 | a buffer behind the limiter holds the first min(n, total) bytes written, and a write reports the limit error exactly when the bytes offered so far reach n |
| `Scenarios.ReadFromStartThenRest` | io.go:27-52 | ReadAllFromStart returns the whole content and reading on continues where the reader was |

## Left out

- The HTTP transport: `httptest.NewServer`, `URL()`, `url.Parse` of the listener address (its failure branch at http_server.go:72-76) and the live connection. The listener's host and scheme are constructor parameters; what the handler writes is returned as a `Reply` value.
- A failed write of the response body to the connection (http_server.go:64-67): network I/O.
- Parsing of the query string (`URL.Query`): `Values` returns the raw query as stored.
- `MockServer.HTTPServer.Headers` returns the header map as a value, so the aliasing between the map Go hands out and the recorded request is not modelled.
- Concurrency: requests are handled one at a time; the source takes no lock around the lists.
- A `T` whose `Fatal` returns (the test double): the Go code would then go on after `Fatal` (the handler with a zero response); the model follows `FailNow` and ends the call.
- `MockServer.HTTPServer.Body`: the error branches of reading and closing a recorded body (http_server.go:134-141) are not modelled, because every recorded body is an in-memory reader that cannot fail.
- `ErrReading.ErrReader.Read` and `ErrWriting.ErrWriter.Write` require `Valid()`, that is `0 <= off <= n`, which the constructors establish for every `n >= 0`; with a negative `n` the Go slice expression `p[:n-off]` panics, and that panic is not modelled.
- Readers and writers other than the in-memory stand-ins (general `io.Reader` short reads, other `io.Writer`s): Dafny here has no interfaces to abstract over them.
- Integer widths: counters and offsets are unbounded integers; no 64-bit overflow is modelled.
- `Helper`, `Skip`, `Setenv`, `TempDir` of `T`, and `Error`/`Fatalf`, which behave as `Errorf`/`Fatal` here.
- The rest of the library (files, directories, environment, JSON/XML, hashing, randomness, network checks, waiting): wrappers around the Go standard library with no logic of their own.

`Rsp` sets `responseCnt` to the number of pending responses, although the field's comment (http_server.go:27) calls it the number of added responses; the model follows the code (see Findings).

## Findings

| source | as written | input that shows it | evidently intended | confidence | as-written member | corrected member |
|---|---|---|---|---|---|---|
| http_server.go:94 | `responseCnt = len(tst.responses)`: the number of responses still pending when Rsp is called | Rsp, one request, Rsp, then cleanup: one response was never used and no failure is reported; Rsp, request, Rsp, request: every response was used and "expected 1 requests got 2" is reported | `responseCnt` counts every response added (the field is documented as the number of added responses, and the cleanup check is meant to catch unused responses) | high; not executed | `ResponseCount.UnusedResponseUnreported` | `ResponseCount.CountedReportsUnused` |

The server class keeps the code as written (`MockServer.HTTPServer.Rsp` follows `ResponseCount.StepAsWritten`); `ResponseCount.StepCounted` is the corrected counter, and `ResponseCount.AsWrittenExactWhenScriptedFirst` shows the two agree in the usual use, where every response is scripted before the first request.
