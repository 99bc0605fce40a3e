/** The parts of Go's `net/http` the transports touch: header maps,
    responses, the request object whose body the Negotiate transport
    rewrites in place, and the request body stream. */
module Http {
  import opened Outcomes
  import opened Base64

  /** `http.Header`: canonical header name to its list of values. */
  type Header = map<string, seq<string>>

  const StatusUnauthorized := 401
  const WwwAuthenticate := "Www-Authenticate"
  const Authorization := "Authorization"

  /** `Header.Values` for a name already in canonical form. */
  function Values(h: Header, name: string): (vs: seq<string>)
    ensures name !in h ==> vs == []
  {
    if name in h then h[name] else []
  }

  /** `Header.Set`: `name` gets the single value `v`; every other entry
      stays as it was. */
  function SetHeader(h: Header, name: string, v: string): (r: Header)
    ensures r.Keys == h.Keys + {name} && r[name] == [v]
    ensures forall k :: k in h && k != name ==> r[k] == h[k]
  {
    h[name := [v]]
  }

  /** A response as the base transport hands it back. */
  datatype Response = Response(status: int, header: Header, body: seq<byte>, bodyClosed: bool)

  /** The response after `io.Copy(io.Discard, resp.Body)` and
      `resp.Body.Close()`: same status and headers, body consumed and closed. */
  function Drained(r: Response): (d: Response)
    ensures d.status == r.status && d.header == r.header && d.body == [] && d.bodyClosed
  {
    r.(body := [], bodyClosed := true)
  }

  /** What one call of the base transport receives: headers, target host
      and the bytes its body stream would yield (None: no body). `host` is
      `URL.Hostname()`: the URL's host name, without port or IPv6 brackets. */
  datatype Wire = Wire(header: Header, host: string, body: Option<seq<byte>>)

  /** A request body stream (`io.ReadCloser`). */
  class Stream {
    var data: seq<byte>
    var readCount: nat
    var closed: bool

    constructor (bytes: seq<byte>)
      ensures data == bytes && readCount == 0 && !closed
    {
      data, readCount, closed := bytes, 0, false;
    }

    /** `io.ReadAll`: yields every remaining byte; read errors are not modelled. */
    method ReadAll() returns (b: seq<byte>)
      modifies this
      ensures b == old(data) && data == [] && readCount == old(readCount) + 1 && closed == old(closed)
    {
      b := data;
      data, readCount := [], readCount + 1;
    }

    method Close()
      modifies this
      ensures closed && data == old(data) && readCount == old(readCount)
    {
      closed := true;
    }
  }

  /** `*http.Request`, reduced to the fields the transports read or write.
      `replay` is `GetBody`: when it is `Some(b)`, every call yields a fresh
      stream over `b`. */
  class Request {
    var header: Header
    /** `URL.Hostname()`: the URL's host name, without port or IPv6 brackets. */
    var host: string
    var body: Stream?
    var replay: Option<seq<byte>>
    var contentLength: int

    constructor (header: Header, host: string, body: Stream?, replay: Option<seq<byte>>, contentLength: int)
      ensures this.header == header && this.host == host && this.body == body
      ensures this.replay == replay && this.contentLength == contentLength
    {
      this.header, this.host, this.body := header, host, body;
      this.replay, this.contentLength := replay, contentLength;
    }

    /** What the base transport receives when it is handed this request. */
    function Snapshot(): (w: Wire)
      reads this, body
      ensures w.header == header && w.host == host
      ensures w.body.Some? <==> body != null
    {
      Wire(header, host, if body == null then None else Some(body.data))
    }

    /** `req.GetBody()`: a fresh, unread stream over the replay bytes. */
    method GetBody() returns (s: Stream)
      requires replay.Some?
      ensures fresh(s) && s.data == replay.value && s.readCount == 0 && !s.closed
    {
      s := new Stream(replay.value);
    }
  }

  /** `cloneHeader`: builds a new map entry by entry from `h`. */
  method CloneHeader(h: Header) returns (h2: Header)
    ensures h2 == h
  {
    h2 := map[];
    var pending := h.Keys;
    while pending != {}
      invariant pending <= h.Keys
      invariant h2.Keys == h.Keys - pending
      invariant forall k :: k in h2 ==> h2[k] == h[k]
      decreases pending
    {
      var k :| k in pending;
      var copied := h[k];
      h2 := h2[k := copied];
      pending := pending - {k};
    }
  }
}
