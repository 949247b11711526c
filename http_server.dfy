/**
 * The scripted mock HTTP server (http_server.go): it answers each request
 * with the next scripted response and records a clone of the request for the
 * test to inspect.
 */
module MockServer {
  import opened Wrappers
  import opened Errors
  import opened Testing
  import opened Streams
  import opened Http
  import opened ResponseCount

  /** A scripted response; a nil body sends no body. */
  datatype Response = Response(status: int, body: Option<seq<Byte>>)

  /** What the handler wrote to the connection: a status line and body bytes. */
  datatype Reply = Reply(status: int, body: seq<Byte>)

  class HTTPServer {
    var requests: seq<Request>  // received requests, as clones
    const host: string          // the listener's host:port
    const scheme: string        // the listener's scheme
    var responseCnt: int        // set by Rsp (see Rsp)
    var responses: seq<Response> // responses still to give, first one next
    const t: TestLog
    var open: bool              // the listener accepts connections; Close stops it

    // public view: the recorded requests with their bodies read in full
    ghost var Recorded: seq<RequestValue>
    ghost var Repr: set<object>

    /**
     * Every recorded request is owned by the server and has its own reader,
     * a fresh replay of its body; its URL carries its Host.
     */
    ghost predicate Valid()
      reads this, Repr
      ensures Valid() ==> this in Repr
    {
      && this in Repr
      && t !in Repr
      && |Recorded| == |requests|
      && (forall i | 0 <= i < |requests| ::
            && requests[i] in Repr
            && requests[i].body != null
            && requests[i].body in Repr
            && requests[i].body.IsReplay()
            && requests[i].url.host == requests[i].host
            && requests[i].Value() == Recorded[i])
      && (forall i, j | 0 <= i < j < |requests| ::
            requests[i] != requests[j] && requests[i].body != requests[j].body)
    }

    /** The counters the teardown check works on. */
    ghost function Counts(): Counters
      reads this
    {
      Counters(|responses|, |requests|, responseCnt)
    }

    /**
     * NewHTTPServer: a server listening on host with scheme (the listener is
     * given), with nothing scripted or recorded, whose cleanup is registered
     * with t.
     */
    constructor (t: TestLog, host: string, scheme: string)
      modifies t`cleanups
      ensures Valid() && fresh(Repr)
      ensures this.t == t && this.host == host && this.scheme == scheme && open
      ensures requests == [] && Recorded == [] && responses == [] && responseCnt == 0
      ensures t.cleanups == old(t.cleanups) + [ServerCleanup(this)]
    {
      this.t, this.host, this.scheme := t, host, scheme;
      requests, responses, responseCnt, open := [], [], 0, true;
      Recorded, Repr := [], {this};
      new;
      t.Cleanup(ServerCleanup(this));
    }

    /**
     * Add a response to the end of the script; responseCnt becomes the number
     * of responses still to give.
     */
    method Rsp(status: int, body: Option<seq<Byte>>) returns (self: HTTPServer)
      requires Valid()
      modifies this`responses, this`responseCnt
      ensures Valid() && self == this
      ensures responses == old(responses) + [Response(status, body)]
      ensures responseCnt == |responses|
      ensures Counts() == StepAsWritten(old(Counts()), AddResponse)
    {
      responses := responses + [Response(status, body)];
      responseCnt := |responses|;
      return this;
    }

    /** The next response to give, taken off the front of the script; none left is fatal. */
    method Next() returns (rsp: Option<Response>)
      modifies this`responses, t
      ensures old(responses) == [] ==> rsp == None && responses == [] && FatalLogged(t, NoMoreResponses)
      ensures old(responses) != [] ==>
        rsp == Some(old(responses)[0]) && responses == old(responses)[1..] && unchanged(t)
    {
      if |responses| == 0 {
        t.Fatal(NoMoreResponses);
        return None;
      }
      rsp, responses := Some(responses[0]), responses[1..];
    }

    /**
     * The request handler: write the next scripted response, and record a
     * clone of req, with the server's scheme, whose body replays what req
     * carried; req itself gets a fresh reader over the same bytes.
     */
    method Handle(req: Request) returns (reply: Option<Reply>)
      requires Valid() && open && req.body != null && req !in Repr && req.body !in Repr
      modifies this, t, req`body, req.body
      ensures Valid() && fresh(Repr - old(Repr))
      ensures req !in Repr && req.body !in Repr && req.url == old(req.url)
      ensures responseCnt == old(responseCnt) && open
      ensures old(responses) == [] ==>
        && reply == None && responses == []
        && requests == old(requests) && Recorded == old(Recorded)
        && FatalLogged(t, NoMoreResponses)
        && req.body == old(req.body) && req.body.pos == old(req.body.pos)
        && Counts() == StepAsWritten(old(Counts()), ServeRequest)
      ensures old(responses) != [] ==> responses == old(responses)[1..]
      ensures old(responses) != [] && DrainError(old(req.body)).Some? ==>
        && reply == Some(Reply(old(responses)[0].status, []))
        && requests == old(requests) && Recorded == old(Recorded)
        && FatalLogged(t, Cause(DrainError(old(req.body)).value))
      ensures old(responses) != [] && DrainError(old(req.body)).None? ==>
        && reply == Some(Reply(old(responses)[0].status, old(responses)[0].body.GetOr([])))
        && Recorded == old(Recorded) + [RequestValue(req.verb, old(req.url).(host := req.host, scheme := scheme),
                                                     req.host, req.header, old(req.body.Remaining()))]
        && req.body != null && fresh(req.body) && req.body.IsReplay()
        && req.body.data == old(req.body.Remaining())
        && Counts() == StepAsWritten(old(Counts()), ServeRequest)
        && unchanged(t)
    {
      var rsp := Next();
      if rsp.None? {
        return None;
      }
      var status := rsp.value.status;  // w.WriteHeader
      var recorded := RecordClone(req);
      if !recorded {
        return Some(Reply(status, []));
      }
      var written := [];
      if rsp.value.body.Some? {
        written := rsp.value.body.value;
      }
      reply := Some(Reply(status, written));
    }

    /**
     * The recording half of the handler: clone req, set the clone's scheme
     * to the server's and append it to the recorded requests. A body that
     * cannot be drained is fatal and nothing is recorded.
     */
    method RecordClone(req: Request) returns (recorded: bool)
      requires Valid() && req.body != null && req !in Repr && req.body !in Repr
      modifies this`requests, this`Recorded, this`Repr, t, req`body, req.body
      ensures Valid() && fresh(Repr - old(Repr))
      ensures req !in Repr && req.body !in Repr
      ensures recorded <==> DrainError(old(req.body)).None?
      ensures !recorded ==>
        && requests == old(requests) && Recorded == old(Recorded)
        && FatalLogged(t, Cause(DrainError(old(req.body)).value))
      ensures recorded ==>
        && |requests| == |old(requests)| + 1
        && Recorded == old(Recorded) + [RequestValue(req.verb, req.url.(host := req.host, scheme := scheme),
                                                     req.host, req.header, old(req.body.Remaining()))]
        && req.body != null && fresh(req.body) && req.body.IsReplay()
        && req.body.data == old(req.body.Remaining())
        && unchanged(t)
    {
      var c := CloneHTTPRequest(t, req);
      if c == null {
        return false;
      }
      c.url := c.url.(scheme := scheme);
      Record(c);
      return true;
    }

    /** Append c, a clone the server takes over, to the recorded requests. */
    method Record(c: Http.Request)
      requires Valid() && c !in Repr && c.body != null && c.body !in Repr && c.body.IsReplay()
      requires c.url.host == c.host
      modifies this`requests, this`Recorded, this`Repr
      ensures Valid() && Repr == old(Repr) + {c, c.body}
      ensures requests == old(requests) + [c] && Recorded == old(Recorded) + [c.Value()]
    {
      requests := requests + [c];
      Recorded := Recorded + [c.Value()];
      Repr := Repr + {c, c.body};
    }

    /** ReqCount: the number of recorded requests. */
    function ReqCount(): (count: nat)
      reads this, Repr
      requires Valid()
      ensures count == |Recorded|
    {
      |requests|
    }

    /** A fresh clone of the nth recorded request; an index out of range is fatal. */
    method Request(n: int) returns (c: Http.Request?)
      requires Valid()
      modifies Repr, t
      ensures Valid() && fresh(Repr - old(Repr))
      ensures requests == old(requests) && Recorded == old(Recorded)
      ensures responses == old(responses) && responseCnt == old(responseCnt) && open == old(open)
      ensures 0 <= n < |requests| ==>
        && c != null && fresh(c) && c.body != null && fresh(c.body) && c.body.IsReplay()
        && c !in Repr && c.body !in Repr
        && c.Value() == Recorded[n]
        && unchanged(t)
      ensures !(0 <= n < |requests|) ==> c == null && FatalLogged(t, NoRequestRecorded(n))
    {
      if 0 <= n < |requests| {
        var req := requests[n];
        c := CloneHTTPRequest(t, req);
        Repr := Repr + {req.body};
        assert req.Value() == Recorded[n];
        return;
      }
      t.Fatal(NoRequestRecorded(n));
      return null;
    }

    /** The query of the nth recorded request; an index out of range is fatal and gives none. */
    method Values(n: int) returns (query: string)
      requires Valid()
      modifies t
      ensures 0 <= n < |requests| ==> query == Recorded[n].url.rawQuery && unchanged(t)
      ensures !(0 <= n < |requests|) ==> query == "" && FatalLogged(t, NoRequestRecorded(n))
    {
      if 0 <= n < |requests| {
        return requests[n].url.rawQuery;
      }
      t.Fatal(NoRequestRecorded(n));
      return "";
    }

    /**
     * The body of the nth recorded request. The body is read and replaced by
     * a fresh reader over the same bytes, so it can be read again. An index
     * out of range is fatal and gives nil. (A recorded body is an in-memory
     * reader: reading and closing it cannot fail.)
     */
    method Body(n: int) returns (b: Option<seq<Byte>>)
      requires Valid()
      modifies Repr, t
      ensures Valid() && fresh(Repr - old(Repr))
      ensures requests == old(requests) && Recorded == old(Recorded)
      ensures responses == old(responses) && responseCnt == old(responseCnt) && open == old(open)
      ensures 0 <= n < |requests| ==> b == Some(Recorded[n].body) && unchanged(t)
      ensures !(0 <= n < |requests|) ==> b == None && FatalLogged(t, NoRequestRecorded(n))
    {
      if 0 <= n < |requests| {
        var req := requests[n];
        var body, _ := ReadAllFrom(req.body);
        req.body := new Reader(body);
        Repr := Repr + {req.body};
        assert req.Value() == Recorded[n];
        return Some(body);
      }
      t.Fatal(NoRequestRecorded(n));
      return None;
    }

    /** The body of the nth recorded request as a string. */
    method BodyString(n: int) returns (s: seq<Byte>)
      requires Valid()
      modifies Repr, t
      ensures Valid() && fresh(Repr - old(Repr))
      ensures requests == old(requests) && Recorded == old(Recorded)
      ensures responses == old(responses) && responseCnt == old(responseCnt) && open == old(open)
      ensures 0 <= n < |requests| ==> s == Recorded[n].body && unchanged(t)
      ensures !(0 <= n < |requests|) ==> s == [] && FatalLogged(t, NoRequestRecorded(n))
    {
      var b := Body(n);
      s := StringOf(b);
    }

    /** The headers of the nth recorded request; an index out of range is fatal and gives nil. */
    method Headers(n: int) returns (h: Option<Header>)
      requires Valid()
      modifies t
      ensures 0 <= n < |requests| ==> h == Some(Recorded[n].header) && unchanged(t)
      ensures !(0 <= n < |requests|) ==> h == None && FatalLogged(t, NoRequestRecorded(n))
    {
      if 0 <= n < |requests| {
        return Some(requests[n].header);
      }
      t.Fatal(NoRequestRecorded(n));
      return None;
    }

    /**
     * Stop the listener, close the recorded bodies and forget the requests
     * and the responses still to give; responseCnt is kept. Closing again
     * changes nothing more.
     */
    method Close() returns (err: Option<Error>)
      requires Valid()
      modifies this`open, this`requests, this`responses, this`Recorded
      ensures Valid() && Repr == old(Repr)
      ensures !open && requests == [] && Recorded == [] && responses == []
      ensures responseCnt == old(responseCnt) && err == None
    {
      open := false;
      for i := 0 to |requests|
        modifies {}
      {
        var _ := requests[i].body.Close();
      }
      requests, responses, Recorded := [], [], [];
      return None;
    }

    /**
     * The cleanup registered with the test: a request count different from
     * responseCnt is a soft failure; the server is closed in any case.
     */
    method RunCleanup()
      requires Valid()
      modifies this`open, this`requests, this`responses, this`Recorded, t
      ensures Valid() && Repr == old(Repr)
      ensures !open && requests == [] && Recorded == [] && responses == []
      ensures responseCnt == old(responseCnt)
      ensures Reports(old(Counts())) ==>
        SoftLogged(t, RequestCountMismatch(responseCnt, |old(requests)|))
      ensures !Reports(old(Counts())) ==> unchanged(t)
    {
      if |requests| != responseCnt {
        t.Errorf(RequestCountMismatch(responseCnt, |requests|));
      }
      var _ := Close();
    }
  }
}
