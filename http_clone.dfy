/** HTTP requests as the mock server sees them, and their cloning with body replay (http.go). */
module Http {
  import opened Wrappers
  import opened Errors
  import opened Testing
  import opened Streams

  /** A parsed URL; the query string is kept as it arrived. */
  datatype URL = URL(scheme: string, host: string, path: string, rawQuery: string)

  /** Header names to their values. */
  type Header = map<string, seq<string>>

  /** What a request holds once its body is read in full. */
  datatype RequestValue = RequestValue(verb: string, url: URL, host: string, header: Header, body: seq<Byte>)

  class Request {
    const verb: string   // the HTTP method
    const host: string    // the Host the request was sent to
    const header: Header
    var url: URL
    var body: Reader?     // a single-use stream; nil when there is no body

    constructor (verb: string, url: URL, host: string, header: Header, body: Reader?)
      ensures this.verb == verb && this.url == url && this.host == host
      ensures this.header == header && this.body == body
    {
      this.verb, this.url, this.host, this.header, this.body := verb, url, host, header, body;
    }

    /** The request with its body read in full from where the stream stands. */
    ghost function Value(): RequestValue
      reads this, body
      requires body != null
    {
      RequestValue(verb, url, host, header, body.Remaining())
    }
  }

  /** The error that draining and closing a body stream ends with, if any. */
  function DrainError(b: Reader): Option<Error>
    reads b
  {
    if b.EndErr() != EOF then Some(b.EndErr()) else b.closeErr
  }

  /**
   * Clone req together with its body: the body stream is read once and
   * closed, then the original and the clone each get their own reader over
   * the bytes read. The clone's URL takes the original's Host and scheme.
   * A failure to read or close the body is fatal and gives nil.
   */
  method CloneHTTPRequest(t: TestLog, req: Request) returns (c: Request?)
    modifies t, req`body, req.body
    ensures req.url == old(req.url)
    ensures old(req.body) == null ==>
      && c != null && fresh(c) && c.body == null && req.body == null
      && c.verb == req.verb && c.header == req.header && c.host == req.host
      && c.url == req.url.(host := req.host)
      && unchanged(t)
    ensures old(req.body) != null && DrainError(old(req.body)).Some? ==>
      && c == null && req.body == old(req.body) && req.body.Remaining() == []
      && FatalLogged(t, Cause(DrainError(req.body).value))
    ensures old(req.body) != null && DrainError(old(req.body)).None? ==>
      && c != null && fresh(c)
      && req.body != null && fresh(req.body) && req.body.IsReplay()
      && c.body != null && fresh(c.body) && c.body.IsReplay() && c.body != req.body
      && req.body.data == old(req.body.Remaining())
      && c.Value() == RequestValue(req.verb, req.url.(host := req.host), req.host, req.header, req.body.data)
      && unchanged(t)
  {
    // req.Clone: the clone shares the body stream until it is replaced.
    c := new Request(req.verb, req.url, req.host, req.header, req.body);
    if req.body != null {
      var body, err := ReadAllFrom(req.body);
      if err.Some? {
        t.Fatal(Cause(err.value));
        return null;
      }
      err := req.body.Close();
      if err.Some? {
        t.Fatal(Cause(err.value));
        return null;
      }
      // The tee buffer and the returned slice hold the same bytes.
      req.body := new Reader(body);
      c.body := new Reader(body);
    }
    c.url := c.url.(host := req.host);
    c.url := c.url.(scheme := req.url.scheme);
  }
}
