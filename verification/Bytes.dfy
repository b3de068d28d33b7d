/**
 Bytes that must survive intact: the copy of a request body kept for a replay
 (bufferBody in internal/agent/proxy.go) and the payload behind a one-line
 stream header (ReadHeader in internal/proto/codec.go).
 */
module Bytes {
  import opened Optional

  newtype Byte = n: int | 0 <= n < 0x100

  /** How a read can end besides with bytes. */
  datatype Error = EOF | Failed(code: int)

  /**
   A byte stream: what is still to come, the error it ends with, and how many
   reads will return nothing at all, without an error, before it is through. Every
   read returns as much as the stream pleases, so a caller is right only if it is
   right for every chunking.
   */
  class Reader {
    var rest: seq<Byte>
    var end: Error
    var stalls: nat

    constructor (bytes: seq<Byte>, end: Error, stalls: nat)
      ensures rest == bytes && this.end == end && this.stalls == stalls
    {
      rest, this.end, this.stalls := bytes, end, stalls;
    }

    /** At most max bytes; the error comes alone or with the last of them; a read may also give neither. */
    method Read(max: nat) returns (chunk: seq<Byte>, err: Option<Error>)
      requires max > 0
      modifies this`rest, this`stalls
      ensures chunk + rest == old(rest) && |chunk| <= max
      ensures err.Some? ==> rest == [] && err.value == end
      ensures chunk == [] && err.None? ==> stalls < old(stalls)
      ensures stalls <= old(stalls)
    {
      var stall :| stall || !stall;
      if stall && stalls > 0 {
        stalls := stalls - 1;
        return [], None;
      }
      if rest == [] {
        return [], Some(end);
      }
      var n :| 0 < n <= max && n <= |rest|;
      chunk, rest := rest[..n], rest[n..];
      var together :| together || !together;
      err := if rest == [] && together then Some(end) else None;
    }
  }

  // ------------------------------------------------------ the request's body

  const MAX_REPLAY_BODY := 0x10_0000

  /** Where a request's body comes from: nowhere, the wire, a buffer, or a buffer and then the wire. */
  datatype Body = NoBody | Wire(r: Reader) | Buffered(bytes: seq<Byte>) | Prefixed(bytes: seq<Byte>, r: Reader)

  class Request {
    var body: Body
    var contentLength: int
    var chunked: bool

    constructor (body: Body, contentLength: int, chunked: bool)
      ensures this.body == body && this.contentLength == contentLength && this.chunked == chunked
    {
      this.body, this.contentLength, this.chunked := body, contentLength, chunked;
    }

    /** Every byte a reader of the body would get. */
    ghost function Content(): (r: seq<Byte>)
      reads this, if body.Wire? || body.Prefixed? then {body.r} else {}
    {
      match body
      case NoBody => []
      case Wire(r) => r.rest
      case Buffered(bytes) => bytes
      case Prefixed(bytes, r) => bytes + r.rest
    }
  }

  /** io.ReadAll over io.LimitReader: everything up to the limit, and the error met before reaching it. */
  method ReadLimited(r: Reader, limit: nat) returns (buf: seq<Byte>, err: Option<Error>)
    modifies r`rest, r`stalls
    ensures buf + r.rest == old(r.rest)
    ensures |buf| == if |old(r.rest)| < limit then |old(r.rest)| else limit
    ensures err.Some? ==> err == Some(r.end) && r.end.Failed? && r.rest == []
    ensures |old(r.rest)| < limit && r.end.Failed? ==> err.Some?
  {
    buf := [];
    while |buf| < limit
      invariant buf + r.rest == old(r.rest) && |buf| <= limit
      decreases r.stalls, limit - |buf|
    {
      var chunk, e := r.Read(limit - |buf|);
      assert buf + (chunk + r.rest) == (buf + chunk) + r.rest;
      buf := buf + chunk;
      if e.Some? {
        return buf, if e.value == EOF then None else e;
      }
    }
    return buf, None;
  }

  /**
   For every body and every chunking: a body that fits is kept and still reads
   the same, with an exact length; one that does not is not kept, and still
   reads the same. Only a body that breaks off is an error: always if it would have
   fitted, never past the first byte that does not fit.
   */
  method BufferBody(req: Request) returns (replay: seq<Byte>, tooBig: bool, err: Option<Error>)
    requires req.body.NoBody? || req.body.Wire?
    modifies req, if req.body.Wire? then {req.body.r} else {}
    ensures err.None? ==> req.Content() == old(req.Content())
    ensures err.None? ==> (tooBig <==> |old(req.Content())| > MAX_REPLAY_BODY)
    ensures err.None? && !tooBig ==> replay == old(req.Content())
    ensures err.None? && !tooBig && old(req.body).Wire? ==>
              req.body == Buffered(replay) && req.contentLength == |replay| && !req.chunked
    ensures err.None? && tooBig ==> replay == [] && req.body.Prefixed? && |req.body.bytes| == MAX_REPLAY_BODY + 1 &&
                                    req.contentLength == old(req.contentLength) && req.chunked == old(req.chunked)
    ensures err.Some? ==> old(req.body).Wire? && err == Some(old(req.body).r.end) && old(req.body).r.end.Failed?
    ensures |old(req.Content())| > MAX_REPLAY_BODY + 1 ==> err.None?
    ensures old(req.body).Wire? && |old(req.Content())| <= MAX_REPLAY_BODY ==>
              (err.Some? <==> old(req.body).r.end.Failed?)
  {
    if req.body.NoBody? {
      return [], false, None;
    }
    var r := req.body.r;
    var buf, e := ReadLimited(r, MAX_REPLAY_BODY + 1);
    if e.Some? {
      return [], false, e;
    }
    if |buf| > MAX_REPLAY_BODY {
      req.body := Prefixed(buf, r);
      return [], true, None;
    }
    req.body := Buffered(buf);
    req.contentLength := |buf|;
    req.chunked := false;
    return buf, false, None;
  }

  // ---------------------------------------------------------- stream headers

  const NEWLINE: Byte := 0x0a
  const CARRIAGE_RETURN: Byte := 0x0d
  const MAX_HEADER := 64 * 1024

  datatype Line = Line(text: seq<Byte>) | TooLong | Broken(err: Error)

  predicate HasNewline(bytes: seq<Byte>, k: nat) {
    k < |bytes| && bytes[k] == NEWLINE && forall i :: 0 <= i < k ==> bytes[i] != NEWLINE
  }

  /**
   What reading a header off `all` comes to: exactly the first line, if it ends
   within the bound, and everything behind it is left; too long if the bound is
   passed without a newline; the stream's own error otherwise.
   */
  ghost predicate HeaderRead(all: seq<Byte>, end: Error, l: Line, rest: seq<Byte>) {
    && (l.Line? <==> exists k: nat :: k <= MAX_HEADER && HasNewline(all, k))
    && (forall k: nat :: k <= MAX_HEADER && HasNewline(all, k) ==>
          l == Line(TrimRight(all[..k + 1])) && rest == all[k + 1..])
    && (l == TooLong <==> |all| > MAX_HEADER && forall i :: 0 <= i <= MAX_HEADER ==> all[i] != NEWLINE)
    && (l.Broken? ==> l.err == end && rest == [])
  }

  /**
   Reads one line a byte at a time. When the line is within bounds exactly that
   line is consumed, so the payload behind it is intact, whatever the stream
   does about chunking and about errors that arrive together with a byte.
   */
  method ReadHeader(r: Reader) returns (l: Line)
    modifies r`rest, r`stalls
    ensures HeaderRead(old(r.rest), r.end, l, r.rest)
  {
    var line: seq<Byte> := [];
    ghost var all := r.rest;
    while true
      invariant line + r.rest == all && |line| <= MAX_HEADER
      invariant NEWLINE !in line
      decreases r.stalls, MAX_HEADER - |line|
    {
      ghost var before := line;
      var chunk, err := r.Read(1);
      if |chunk| == 1 {
        line := line + chunk;
        assert before + (chunk + r.rest) == line + r.rest;
        if chunk[0] == NEWLINE {
          assert line == before + [NEWLINE];
          LineEnds(all, r.end, before, r.rest);
          return Line(TrimRight(line));
        }
        if |line| > MAX_HEADER {
          LineTooLong(all, r.end, line, r.rest);
          return TooLong;
        }
      }
      if err.Some? {
        LineBreaksOff(all, line, r.end);
        return Broken(err.value);
      }
    }
  }

  lemma LineEnds(all: seq<Byte>, end: Error, line: seq<Byte>, rest: seq<Byte>)
    requires all == line + [NEWLINE] + rest && NEWLINE !in line && |line| <= MAX_HEADER
    ensures HeaderRead(all, end, Line(TrimRight(line + [NEWLINE])), rest)
  {
    assert forall i :: 0 <= i < |line| ==> all[i] == line[i];
    assert all[|line|] == NEWLINE;
    assert HasNewline(all, |line|);
    assert forall k: nat :: HasNewline(all, k) ==> k == |line|;
    assert all[..|line| + 1] == line + [NEWLINE] && all[|line| + 1..] == rest;
  }

  lemma NoNewlineWithin(all: seq<Byte>, line: seq<Byte>, rest: seq<Byte>)
    requires all == line + rest && NEWLINE !in line
    ensures forall k: nat :: HasNewline(all, k) ==> |line| <= k
    ensures forall i :: 0 <= i < |line| ==> all[i] != NEWLINE
  {
    assert forall i :: 0 <= i < |line| ==> all[i] == line[i];
  }

  lemma LineTooLong(all: seq<Byte>, end: Error, line: seq<Byte>, rest: seq<Byte>)
    requires all == line + rest && NEWLINE !in line && |line| > MAX_HEADER
    ensures HeaderRead(all, end, TooLong, rest)
  {
    NoNewlineWithin(all, line, rest);
  }

  lemma LineBreaksOff(all: seq<Byte>, line: seq<Byte>, end: Error)
    requires all == line + [] && NEWLINE !in line && |line| <= MAX_HEADER
    ensures HeaderRead(all, end, Broken(end), [])
  {
    NoNewlineWithin(all, line, []);
  }

  /** bytes.TrimRight(line, "\r\n") */
  function TrimRight(line: seq<Byte>): (r: seq<Byte>)
    ensures r <= line
    ensures r != [] ==> r[|r| - 1] != NEWLINE && r[|r| - 1] != CARRIAGE_RETURN
    ensures forall i :: |r| <= i < |line| ==> line[i] == NEWLINE || line[i] == CARRIAGE_RETURN
  {
    if line != [] && (line[|line| - 1] == NEWLINE || line[|line| - 1] == CARRIAGE_RETURN)
    then TrimRight(line[..|line| - 1]) else line
  }

  /** What the encoder wrote as one line is what the reader gets, with everything behind it untouched. */
  method HeaderRoundTrip(text: seq<Byte>, payload: seq<Byte>, end: Error, stalls: nat)
    returns (l: Line, rest: seq<Byte>)
    requires |text| <= MAX_HEADER
    requires forall i :: 0 <= i < |text| ==> text[i] != NEWLINE && text[i] != CARRIAGE_RETURN
    ensures l == Line(text) && rest == payload
  {
    var wire := text + [NEWLINE] + payload;
    var r := new Reader(wire, end, stalls);
    assert HasNewline(wire, |text|);
    l := ReadHeader(r);
    assert wire[..|text| + 1] == text + [NEWLINE];
    assert wire[|text| + 1..] == payload;
    assert (text + [NEWLINE])[..|text|] == text;
    assert TrimRight(text + [NEWLINE]) == TrimRight(text);
    assert TrimRight(text) == text;
    rest := r.rest;
  }
}
