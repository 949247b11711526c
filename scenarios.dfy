/**
 * Client code of the helpers: the scenarios of the package's own tests,
 * stated for all inputs where the tests pick one.
 */
module Scenarios {
  import opened Wrappers
  import opened Errors
  import opened Testing
  import opened Streams
  import opened ErrReading
  import opened ErrWriting
  import opened IoHelpers
  import opened Http
  import opened MockServer

  const Host := "127.0.0.1:8080"

  /** A request as the server receives it: its URL has neither scheme nor host. */
  method Incoming(verb: string, query: string, body: seq<Byte>) returns (req: Request)
    ensures fresh(req) && req.body != null && fresh(req.body) && req.body.IsReplay()
    ensures req.Value() == RequestValue(verb, URL("", "", "/", query), Host, map[], body)
  {
    var stream := new Reader(body);
    req := new Request(verb, URL("", "", "/", query), Host, map[], stream);
  }

  /**
   * A server with one scripted response that has received one POST of
   * `body` with `query`.
   */
  method ServeOne(t: TestLog, status: int, rspBody: Option<seq<Byte>>, query: string, body: seq<Byte>)
    returns (srv: HTTPServer, req: Request, reply: Option<Reply>)
    requires !t.failed && !t.stopped
    modifies t
    ensures srv.Valid() && fresh(srv.Repr) && srv.t == t && !t.failed
    ensures srv.Recorded == [RequestValue("POST", URL("http", Host, "/", query), Host, map[], body)]
    ensures reply == Some(Reply(status, rspBody.GetOr([])))
    ensures fresh(req) && req !in srv.Repr && req.body != null && fresh(req.body) && req.body !in srv.Repr
    ensures req.body.IsReplay() && req.body.data == body
  {
    srv := new HTTPServer(t, Host, "http");
    var _ := srv.Rsp(status, rspBody);
    req := Incoming("POST", query, body);
    reply := srv.Handle(req);
  }

  /**
   * One scripted 200 response and one POST: the client gets the scripted
   * response, and the server records one request whose body reads the same
   * twice and whose query is the one sent.
   */
  method SmokeTest(reqBody: seq<Byte>, rspBody: seq<Byte>, query: string)
    returns (reply: Option<Reply>, count: nat, body: Option<seq<Byte>>, again: Option<seq<Byte>>,
             values: string, failed: bool)
    ensures reply == Some(Reply(200, rspBody))
    ensures count == 1 && body == Some(reqBody) && again == body
    ensures values == query
    ensures !failed
  {
    var t := new TestLog();
    var srv, req;
    srv, req, reply := ServeOne(t, 200, Some(rspBody), query, reqBody);
    count := srv.ReqCount();
    body := srv.Body(0);
    again := srv.Body(0);
    values := srv.Values(0);
    failed := t.failed;
  }

  /**
   * After one POST, Request(0) is a clone with the server's scheme and host
   * in its URL and the body sent, and the original request can still be
   * read in full.
   */
  method SmokeTestRequest(reqBody: seq<Byte>, rspBody: seq<Byte>, query: string)
    returns (url: URL, cloned: seq<Byte>, original: seq<Byte>, failed: bool)
    ensures url == URL("http", Host, "/", query)
    ensures cloned == reqBody && original == reqBody
    ensures !failed
  {
    var t := new TestLog();
    var srv, req, reply := ServeOne(t, 200, Some(rspBody), query, reqBody);
    var c := srv.Request(0);
    url := c.url;
    var readErr;
    cloned, readErr := ReadAllFrom(c.body);
    original, readErr := ReadAllFrom(req.body);
    failed := t.failed;
  }

  /**
   * Request(0) hands out a clone: draining its body and rewriting its URL
   * leaves the recorded request as it was, so a second Request(0) gives the
   * original URL and body again.
   */
  method RequestCloneIsIndependent(reqBody: seq<Byte>, query: string, other: URL)
    returns (url: URL, body: seq<Byte>, failed: bool)
    ensures url == URL("http", Host, "/", query) && body == reqBody
    ensures !failed
  {
    var t := new TestLog();
    var srv, req, reply := ServeOne(t, 200, None, query, reqBody);
    url, body := RequestAgain(srv, other);
    failed := t.failed;
  }

  /** Take Request(0), tamper with it, then take Request(0) again and read it. */
  method RequestAgain(srv: HTTPServer, other: URL) returns (url: URL, body: seq<Byte>)
    requires srv.Valid() && srv.Recorded != []
    modifies srv.Repr, srv.t
    ensures url == old(srv.Recorded[0].url) && body == old(srv.Recorded[0].body)
    ensures srv.t.failed == old(srv.t.failed)
  {
    var c := srv.Request(0);
    Tamper(c, other);
    var again := srv.Request(0);
    url := again.url;
    var readErr;
    body, readErr := ReadAllFrom(again.body);
  }

  /** Drain the body of c and point its URL elsewhere. */
  method Tamper(c: Request, other: URL)
    requires c.body != null
    modifies c`url, c.body`pos
    ensures c.url == other && c.body.Remaining() == []
  {
    var _, _ := ReadAllFrom(c.body);
    c.url := other;
  }

  /** A scripted response with a nil body: the client gets the status and an empty body. */
  method EmptyResponseBody(reqBody: seq<Byte>, query: string)
    returns (reply: Option<Reply>, count: nat, url: URL, cloned: seq<Byte>, failed: bool)
    ensures reply == Some(Reply(201, [])) && count == 1
    ensures url == URL("http", Host, "/", query) && cloned == reqBody
    ensures !failed
  {
    var t := new TestLog();
    var srv, req;
    srv, req, reply := ServeOne(t, 201, None, query, reqBody);
    count := srv.ReqCount();
    var c := srv.Request(0);
    url := c.url;
    var readErr;
    cloned, readErr := ReadAllFrom(c.body);
    failed := t.failed;
  }

  /** A new server on t with two scripted responses that has served one POST. */
  method TwoScriptedOneServed(t: TestLog) returns (srv: HTTPServer)
    requires t.messages == [] && !t.failed && !t.stopped && t.cleanups == []
    modifies t
    ensures srv.Valid() && srv.t == t && srv.responseCnt == 2 && |srv.requests| == 1
    ensures t.messages == [] && !t.failed && !t.stopped && t.cleanups == [ServerCleanup(srv)]
  {
    srv := new HTTPServer(t, Host, "http");
    var _ := srv.Rsp(200, None);
    var _ := srv.Rsp(200, None);
    var _ := Post(srv, []);
  }

  /**
   * Two scripted responses and one request: the cleanup registered by the
   * server, called when the test completes, reports the mismatch without
   * stopping the test, and closes the server.
   */
  method CountMismatchAtCleanup() returns (messages: seq<Message>, failed: bool, stopped: bool, left: nat)
    ensures messages == [RequestCountMismatch(2, 1)]
    ensures failed && !stopped && left == 0
  {
    var t := new TestLog();
    var srv := TwoScriptedOneServed(t);
    var hook := t.NextCleanup();
    assert CallOrder([ServerCleanup(srv)]) == [ServerCleanup(srv)];
    assert hook == Some(ServerCleanup(srv));
    srv.RunCleanup();
    messages, failed, stopped := t.messages, t.failed, t.stopped;
    left := srv.ReqCount();
  }

  /** A new server on t with the responses of script queued in order. */
  method ScriptAll(t: TestLog, script: seq<Response>) returns (srv: HTTPServer)
    requires t.messages == [] && !t.stopped
    modifies t
    ensures srv.Valid() && srv.open && fresh(srv.Repr) && srv.t == t && srv.scheme == "http"
    ensures srv.responses == script && srv.Recorded == []
    ensures t.messages == [] && !t.stopped
  {
    srv := new HTTPServer(t, Host, "http");
    for k := 0 to |script|
      invariant srv.Valid() && srv.open && fresh(srv.Repr) && srv.t == t
      invariant srv.responses == script[..k] && srv.Recorded == []
      invariant t.messages == [] && !t.stopped
    {
      var _ := srv.Rsp(script[k].status, script[k].body);
    }
  }

  /** POST body with an empty query to srv. */
  method Post(srv: HTTPServer, body: seq<Byte>) returns (reply: Option<Reply>)
    requires srv.Valid() && srv.open && srv.scheme == "http"
    modifies srv, srv.t
    ensures srv.Valid() && srv.open && fresh(srv.Repr - old(srv.Repr)) && srv.responseCnt == old(srv.responseCnt)
    ensures old(srv.responses) == [] ==>
      && reply == None && srv.Recorded == old(srv.Recorded)
      && FatalLogged(srv.t, NoMoreResponses)
    ensures old(srv.responses) != [] ==>
      && reply == Some(Reply(old(srv.responses)[0].status, old(srv.responses)[0].body.GetOr([])))
      && srv.responses == old(srv.responses)[1..]
      && srv.Recorded == old(srv.Recorded) + [RequestValue("POST", URL("http", Host, "/", ""), Host, map[], body)]
      && unchanged(srv.t)
  {
    var req := Incoming("POST", "", body);
    assert DrainError(req.body) == None;
    reply := srv.Handle(req);
  }

  /**
   * POST each of bodies in turn until the test stops: the kth request gets
   * the kth pending response and is recorded with its body; the request
   * after the last pending response is fatal.
   */
  method SendAll(srv: HTTPServer, bodies: seq<seq<Byte>>) returns (replies: seq<Option<Reply>>)
    requires srv.Valid() && srv.open && srv.scheme == "http"
    requires srv.Recorded == [] && srv.t.messages == [] && !srv.t.stopped
    modifies srv, srv.t
    ensures srv.Valid() && fresh(srv.Repr - old(srv.Repr))
    ensures |replies| == Min(|bodies|, |old(srv.responses)| + 1)
    ensures forall k :: 0 <= k < |replies| && k < |old(srv.responses)| ==>
      replies[k] == Some(Reply(old(srv.responses)[k].status, old(srv.responses)[k].body.GetOr([])))
    ensures |srv.Recorded| == Min(|bodies|, |old(srv.responses)|)
    ensures forall k :: 0 <= k < |srv.Recorded| ==> srv.Recorded[k].body == bodies[k]
    ensures srv.t.stopped <==> |bodies| > |old(srv.responses)|
    ensures srv.t.stopped ==> replies[|old(srv.responses)|] == None && srv.t.messages == [NoMoreResponses]
    ensures !srv.t.stopped ==> srv.t.messages == []
  {
    replies := PostScripted(srv, bodies);
    if |replies| < |bodies| {
      // the script is used up: this request is fatal and the test stops
      var reply := Post(srv, bodies[|replies|]);
      replies := replies + [reply];
    }
  }

  /** POST bodies in turn while responses are pending; every one is served. */
  method PostScripted(srv: HTTPServer, bodies: seq<seq<Byte>>) returns (replies: seq<Option<Reply>>)
    requires srv.Valid() && srv.open && srv.scheme == "http"
    requires srv.Recorded == [] && srv.t.messages == [] && !srv.t.stopped
    modifies srv, srv.t
    ensures srv.Valid() && srv.open && fresh(srv.Repr - old(srv.Repr)) && srv.scheme == "http"
    ensures |replies| == Min(|bodies|, |old(srv.responses)|)
    ensures forall k :: 0 <= k < |replies| ==>
      replies[k] == Some(Reply(old(srv.responses)[k].status, old(srv.responses)[k].body.GetOr([])))
    ensures srv.responses == old(srv.responses)[|replies|..]
    ensures |srv.Recorded| == |replies|
    ensures forall k :: 0 <= k < |srv.Recorded| ==> srv.Recorded[k].body == bodies[k]
    ensures srv.t.messages == [] && !srv.t.stopped
  {
    ghost var script := srv.responses;
    var t := srv.t;
    replies := [];
    var i := 0;
    while i < |bodies| && srv.responses != []
      invariant srv.Valid() && srv.open && fresh(srv.Repr - old(srv.Repr)) && srv.t == t && srv.scheme == "http"
      invariant i <= |bodies| && i <= |script| && |replies| == i
      invariant forall k :: 0 <= k < i ==>
        replies[k] == Some(Reply(script[k].status, script[k].body.GetOr([])))
      invariant srv.responses == script[i..] && t.messages == [] && !t.stopped
      invariant |srv.Recorded| == i
      invariant forall k :: 0 <= k < i ==> srv.Recorded[k].body == bodies[k]
    {
      var reply := Post(srv, bodies[i]);
      replies := replies + [reply];
      i := i + 1;
    }
  }

  /** Body(k) for every recorded request k, in order. */
  method ReadBodies(srv: HTTPServer) returns (recorded: seq<Option<seq<Byte>>>)
    requires srv.Valid()
    modifies srv.Repr, srv.t
    ensures |recorded| == |old(srv.Recorded)|
    ensures forall k :: 0 <= k < |recorded| ==> recorded[k] == Some(old(srv.Recorded)[k].body)
  {
    var count := srv.ReqCount();
    recorded := [];
    for k := 0 to count
      invariant srv.Valid() && fresh(srv.Repr - old(srv.Repr))
      invariant srv.Recorded == old(srv.Recorded) && count == |srv.Recorded| && |recorded| == k
      invariant forall j :: 0 <= j < k ==> recorded[j] == Some(srv.Recorded[j].body)
    {
      var b := srv.Body(k);
      recorded := recorded + [b];
    }
  }

  /**
   * Script responses, then send requests one by one until the test stops:
   * the ith request gets the ith response, every request gets recorded with
   * its body, and the request after the last scripted response is fatal.
   */
  method ScriptedSession(script: seq<Response>, bodies: seq<seq<Byte>>)
    returns (replies: seq<Option<Reply>>, recorded: seq<Option<seq<Byte>>>, messages: seq<Message>, stopped: bool)
    ensures |replies| == Min(|bodies|, |script| + 1)
    ensures forall i :: 0 <= i < |replies| && i < |script| ==>
      replies[i] == Some(Reply(script[i].status, script[i].body.GetOr([])))
    ensures |recorded| == Min(|bodies|, |script|)
    ensures forall i :: 0 <= i < |recorded| ==> recorded[i] == Some(bodies[i])
    ensures stopped <==> |bodies| > |script|
    ensures stopped ==> replies[|script|] == None && messages == [NoMoreResponses]
    ensures !stopped ==> messages == []
  {
    var t := new TestLog();
    var srv := ScriptAll(t, script);
    replies := SendAll(srv, bodies);
    stopped, messages := t.stopped, t.messages;
    recorded := ReadBodies(srv);
  }

  /**
   * ioutil.ReadAll through ErrReader(bytes.NewReader(data), n, custom): the
   * first n bytes at most come through; the limit error ends the read unless
   * the data ran out below the limit (or is the limit error io.EOF itself).
   */
  method ReadAllThroughLimit(data: seq<Byte>, n: nat, custom: Option<Error>)
    returns (got: seq<Byte>, err: Option<Error>)
    ensures got == data[..Min(n, |data|)]
    ensures err == if |data| < n || data == [] || LimitError(custom) == EOF then None
                   else Some(LimitError(custom))
  {
    var r := new Reader(data);
    var er := new ErrReader(r, n, custom);
    var p := new Byte[512];
    got := [];
    while true
      invariant er.r == r && er.n == n && er.err == LimitError(custom) && r.data == data
      invariant 0 <= er.off <= n && r.pos == er.off <= |data|
      invariant er.off < n || er.off == 0
      invariant got == data[..er.off]
      decreases n - er.off
    {
      var count;
      count, err := er.Read(p);
      got := got + p[..count];
      if err.Some? {
        if err.value == EOF {
          err := None;
        }
        return;
      }
    }
  }

  /**
   * One Read of a size-byte buffer through ErrReader(bytes.NewReader(data),
   * n, custom): the buffer gets the first bytes up to the buffer size and the
   * limit; the limit error comes with them when they reach n.
   */
  method ReadOnceThroughLimit(data: seq<Byte>, n: nat, size: nat, custom: Option<Error>)
    returns (count: nat, err: Option<Error>, dst: seq<Byte>)
    ensures count == if data == [] then 0 else Min(Min(size, n), |data|)
    ensures |dst| == size && dst[..count] == data[..count]
    ensures err == if data == [] then Some(EOF)
                   else if count >= n then Some(LimitError(custom))
                   else None
  {
    var r := new Reader(data);
    var er := new ErrReader(r, n, custom);
    var p := new Byte[size];
    count, err := er.Read(p);
    dst := p[..];
  }

  /** All the chunks, one after the other. */
  function Concat(chunks: seq<seq<Byte>>): seq<Byte> {
    if chunks == [] then [] else Concat(chunks[..|chunks| - 1]) + chunks[|chunks| - 1]
  }

  /**
   * Writes of the chunks through ErrWriter(&bytes.Buffer{}, n, custom): the
   * buffer holds the first n bytes written at most, and a write reports the
   * limit error exactly when the bytes offered so far reach n.
   */
  method WriteAllThroughLimit(chunks: seq<seq<Byte>>, n: nat, custom: Option<Error>)
    returns (dst: seq<Byte>, errs: seq<Option<Error>>)
    ensures dst == Concat(chunks)[..Min(n, |Concat(chunks)|)]
    ensures |errs| == |chunks|
    ensures forall i :: 0 <= i < |chunks| ==>
      errs[i] == if |Concat(chunks[..i + 1])| >= n then Some(LimitError(custom)) else None
  {
    var w := new Writer();
    var ew := new ErrWriter(w, n, custom);
    errs := [];
    for i := 0 to |chunks|
      invariant ew.w == w && ew.n == n && ew.err == LimitError(custom) && w.room == None
      invariant ew.off == Min(n, |Concat(chunks[..i])|)
      invariant w.written == Concat(chunks[..i])[..ew.off]
      invariant |errs| == i
      invariant forall k :: 0 <= k < i ==>
        errs[k] == if |Concat(chunks[..k + 1])| >= n then Some(LimitError(custom)) else None
    {
      assert chunks[..i + 1][..i] == chunks[..i];
      var _, e := ew.Write(chunks[i]);
      errs := errs + [e];
    }
    assert chunks[..|chunks|] == chunks;
    dst := w.written;
  }

  /**
   * ReadAllFromStart on a reader moved to k: the whole content comes back,
   * and reading on afterwards continues from k.
   */
  method ReadFromStartThenRest(data: seq<Byte>, k: nat) returns (whole: Option<seq<Byte>>, rest: Option<seq<Byte>>, failed: bool)
    requires k <= |data|
    ensures whole == Some(data) && rest == Some(data[k..]) && !failed
  {
    var t := new TestLog();
    var r := new Reader(data);
    var _, _ := r.Seek(k, SeekStart);
    whole := ReadAllFromStart(t, r);
    assert r.pos == k && r.Remaining() == data[k..];
    rest := ReadAll(t, r);
    failed := t.failed;
  }
}
