/** The part of net/http's `http.ResponseWriter` the authorization middleware
    relies on, as the standard library's HTTP/1 server implements it:
    `Header()` hands out the live header map; the first `WriteHeader` fixes
    the status and, if `Header()` had been called before, takes a copy of the
    header map then; a `Header()` call after the status is fixed and before
    the header is sent takes that copy instead; the first `Write` sends the
    header line (the copy if there is one, otherwise the live map), after an
    implicit `WriteHeader(200)`. So a header changed after `WriteHeader` never
    goes out, as the documentation of `ResponseWriter.Header` says. `sent` is
    the handler's header map only: the headers the server adds of its own
    (`Date`, `Content-Length`, a sniffed `Content-Type`) are not modelled. */
module NetHttp {
  import opened Common
  import opened GoErrors

  const StatusOK: int := 200
  const StatusUnauthorized: int := 401
  const StatusNotFound: int := 404
  const StatusInternalServerError: int := 500

  /** What `Write` returns once the connection is gone. */
  const ClosedText: string := "connection closed"

  /** A response writer at one moment. */
  datatype Writer = Writer(
    header: map<string, string>,       // the map `Header()` returns
    calledHeader: bool,                // `Header()` has been called
    wroteHeader: bool,                 // `WriteHeader` has taken effect
    status: int,                       // the status it fixed
    snapshot: Option<map<string, string>>,   // the copy taken by `WriteHeader`
    sent: Option<map<string, string>>,       // the header as it went out
    body: seq<byte>,                   // the body bytes accepted
    closed: bool)                      // the client has gone: every `Write` fails

  /** The header map is copied, and the header sent, only once the status is
      fixed. */
  predicate Valid(w: Writer)
  {
    (w.snapshot.Some? ==> w.wroteHeader) && (w.sent.Some? ==> w.wroteHeader)
  }

  /** A writer before the handler has touched it. */
  function Fresh(closed: bool): (w: Writer)
    ensures Valid(w) && !w.calledHeader && !w.wroteHeader && w.sent.None?
  {
    Writer(map[], false, false, StatusOK, None, None, [], closed)
  }

  /** Whether a `Header()` call now takes the copy that will be sent: the
      status is fixed, no copy exists yet and nothing has been sent. */
  predicate CopiesOnHeader(w: Writer)
  {
    w.wroteHeader && w.snapshot.None? && w.sent.None?
  }

  /** `w.Header()`. */
  function AfterHeader(w: Writer): (t: Writer)
    ensures t.calledHeader && t.header == w.header && t.sent == w.sent && t.body == w.body
    ensures t.wroteHeader == w.wroteHeader && t.status == w.status && t.closed == w.closed
    ensures CopiesOnHeader(w) ==> t.snapshot == Some(w.header)
    ensures !CopiesOnHeader(w) ==> t.snapshot == w.snapshot
    ensures Valid(w) ==> Valid(t)
  {
    w.(calledHeader := true, snapshot := if CopiesOnHeader(w) then Some(w.header) else w.snapshot)
  }

  /** `w.Header().Set(key, value)`: the live map changes, but once the status
      is fixed the header that will go out does not. */
  function AfterSet(w: Writer, key: string, value: string): (t: Writer)
    ensures t == AfterHeader(w).(header := w.header[key := value])
    ensures w.wroteHeader && w.sent.None? ==> Outgoing(t) == Outgoing(w)
    ensures Valid(w) ==> Valid(t)
  {
    AfterHeader(w).(header := w.header[key := value])
  }

  /** `w.WriteHeader(code)`: only the first call counts; it copies the header
      map if `Header()` was called before it. */
  function AfterWriteHeader(w: Writer, code: int): (t: Writer)
    ensures w.wroteHeader ==> t == w
    ensures !w.wroteHeader ==> t.wroteHeader && t.status == code
    ensures !w.wroteHeader && w.calledHeader && w.snapshot.None? ==> t.snapshot == Some(w.header)
    ensures !(w.calledHeader && w.snapshot.None?) ==> t.snapshot == w.snapshot
    ensures t.header == w.header && t.body == w.body && t.sent == w.sent
    ensures Valid(w) ==> Valid(t)
  {
    if w.wroteHeader then w
    else
      var snap := if w.calledHeader && w.snapshot.None? then Some(w.header) else w.snapshot;
      w.(wroteHeader := true, status := code, snapshot := snap)
  }

  /** The header that goes out with the first body bytes. */
  function Outgoing(w: Writer): map<string, string>
  {
    if w.snapshot.Some? then w.snapshot.value else w.header
  }

  /** `w.Write(b)`: the status defaults to 200, the header goes out the first
      time, and the bytes are taken unless the connection is closed. */
  function AfterWrite(w: Writer, b: seq<byte>): (t: Writer)
    ensures var fixed := AfterWriteHeader(w, StatusOK);
      && t.sent == (if w.sent.Some? then w.sent else Some(Outgoing(fixed)))
      && t.body == (if w.closed then w.body else w.body + b)
      && t.status == fixed.status && t.wroteHeader && t.header == w.header
    ensures Valid(w) ==> Valid(t)
  {
    var fixed := AfterWriteHeader(w, StatusOK);
    fixed.(sent := if fixed.sent.Some? then fixed.sent else Some(Outgoing(fixed)),
           body := if w.closed then w.body else w.body + b)
  }

  /** What `w.Write` returns. */
  function WriteReply(w: Writer): (r: Option<GoError>)
    ensures r.Some? <==> w.closed
  {
    if w.closed then Some(Plain(ClosedText)) else None
  }

  // ---------------------------------------------------------------------------
  // Properties
  // ---------------------------------------------------------------------------

  /** A header set before the status is fixed goes out. */
  lemma SetBeforeStatusIsSent(w: Writer, key: string, value: string, code: int, b: seq<byte>)
    requires Valid(w) && !w.wroteHeader
    ensures var t := AfterWrite(AfterWriteHeader(AfterSet(w, key, value), code), b);
      t.sent.Some? && key in t.sent.value && t.sent.value[key] == value && t.status == code
  {
  }

  /** A header set after the status is fixed never goes out: what is sent is
      the header map as it was when the status was fixed. */
  lemma SetAfterStatusIsLost(w: Writer, key: string, value: string, code: int, b: seq<byte>)
    requires Valid(w) && !w.wroteHeader
    ensures var t := AfterWrite(AfterSet(AfterWriteHeader(w, code), key, value), b);
      t.sent == Some(w.header) && t.status == code
  {
  }

  /** The mutable writer the handlers are given. */
  class ResponseWriter {
    var header: map<string, string>
    var calledHeader: bool
    var wroteHeader: bool
    var status: int
    var snapshot: Option<map<string, string>>
    var sent: Option<map<string, string>>
    var body: seq<byte>
    var closed: bool

    function State(): Writer
      reads this
    {
      Writer(header, calledHeader, wroteHeader, status, snapshot, sent, body, closed)
    }

    constructor (closed: bool)
      ensures State() == Fresh(closed)
    {
      header := map[];
      calledHeader := false;
      wroteHeader := false;
      status := StatusOK;
      snapshot := None;
      sent := None;
      body := [];
      this.closed := closed;
    }

    /** `w.Header()`, the map itself. */
    method Header() returns (h: map<string, string>)
      modifies this
      ensures h == old(header)
      ensures State() == AfterHeader(old(State()))
    {
      if wroteHeader && snapshot.None? && sent.None? {
        snapshot := Some(header);
      }
      calledHeader := true;
      h := header;
    }

    /** `w.Header().Set(key, value)`. */
    method SetHeader(key: string, value: string)
      modifies this
      ensures State() == AfterSet(old(State()), key, value)
    {
      if wroteHeader && snapshot.None? && sent.None? {
        snapshot := Some(header);
      }
      calledHeader := true;
      header := header[key := value];
    }

    /** `w.WriteHeader(code)`. */
    method WriteHeader(code: int)
      modifies this
      ensures State() == AfterWriteHeader(old(State()), code)
    {
      if wroteHeader {
        return;
      }
      wroteHeader := true;
      status := code;
      if calledHeader && snapshot.None? {
        snapshot := Some(header);
      }
    }

    /** `w.Write(b)`. */
    method Write(b: seq<byte>) returns (err: Option<GoError>)
      modifies this
      ensures err == WriteReply(old(State()))
      ensures State() == AfterWrite(old(State()), b)
    {
      WriteHeader(StatusOK);
      if sent.None? {
        sent := Some(if snapshot.Some? then snapshot.value else header);
      }
      if closed {
        return Some(Plain(ClosedText));
      }
      body := body + b;
      return None;
    }
  }
}
