/** The RFCOMM socket as the engine sees it, and the buffered AT message
    reader (`struct at_reader` and `rfcomm_read_at`): one read fills a
    256-byte buffer, and every message in it is parsed, one per call, before
    the socket is read again. */
module AtReader {
  import opened Sys
  import opened CText
  import opened At

  /** What one `read` of a descriptor finds: bytes (none at all means the peer
      closed the connection), or an error. */
  datatype Chunk = Data(bytes: string) | Fail(errno: Errno)

  /** A stream socket: the chunks still to arrive, the messages written so
      far, and the error every write fails with, if the socket is broken. */
  class Socket {
    var inbox: seq<Chunk>
    var outbox: seq<AtMessage>
    var writeError: Option<Errno>

    constructor (inbox: seq<Chunk>, writeError: Option<Errno>)
      ensures this.inbox == inbox && outbox == [] && this.writeError == writeError
    {
      this.inbox := inbox;
      outbox := [];
      this.writeError := writeError;
    }

    /** `rfcomm_write_at` (and a raw `write`): the message is sent unless the
        socket is broken. */
    method Write(msg: AtMessage) returns (st: Status)
      modifies this`outbox
      ensures st == WriteStatus(this)
      ensures outbox == old(outbox) + Sent(this, [msg])
    {
      if writeError.Some? {
        st := Err(writeError.value);
      } else {
        outbox := outbox + [msg];
        st := Ok;
      }
    }

    /** `read(fd, buffer, limit)` on a readable socket. */
    method Read(limit: nat) returns (c: Chunk)
      requires inbox != [] && limit > 0
      modifies this`inbox
      ensures (c, inbox) == TakeRead(old(inbox), limit)
    {
      c, inbox := TakeRead(inbox, limit).0, TakeRead(inbox, limit).1;
    }
  }

  /** Outcome of a write on a socket whose writes fail with `werr`, if set. */
  function StatusOn(werr: Option<Errno>): Status
  {
    if werr.Some? then Err(werr.value) else Ok
  }

  /** Messages that actually leave through a socket whose writes fail with
      `werr`, if set, when a callback writes `msgs` one after the other,
      stopping at the first failed write. */
  function SentOn(werr: Option<Errno>, msgs: seq<AtMessage>): seq<AtMessage>
  {
    if werr.Some? then [] else msgs
  }

  /** Outcome of a write on `sock`. */
  function WriteStatus(sock: Socket): Status
    reads sock
  {
    StatusOn(sock.writeError)
  }

  /** Messages that actually leave through `sock`. */
  function Sent(sock: Socket, msgs: seq<AtMessage>): seq<AtMessage>
    reads sock
  {
    SentOn(sock.writeError, msgs)
  }

  /** One `read` of at most `limit` bytes: the rest of a longer chunk stays
      queued, an end of stream stays (every later read returns 0 again), an
      error is reported once. */
  function TakeRead(inbox: seq<Chunk>, limit: nat): (r: (Chunk, seq<Chunk>))
    requires inbox != [] && limit > 0
    ensures r.0.Data? ==> |r.0.bytes| <= limit
  {
    match inbox[0]
    case Fail(e) => (Fail(e), inbox[1..])
    case Data(d) =>
      if |d| == 0 then (Data([]), inbox)
      else if |d| <= limit then (Data(d), inbox[1..])
      else (Data(d[..limit]), [Data(d[limit..])] + inbox[1..])
  }

  const BufferSize: nat := 256

  /** The byte count the source passes to `read`: `sizeof(reader->buffer)`. */
  const ReadLimitAsWritten: nat := BufferSize

  /** The byte count that leaves room for the terminating NUL. */
  const ReadLimit: nat := BufferSize - 1

  /** Outcome of `rfcomm_read_at`. */
  datatype ReadResult = Got(msg: AtMessage) | Failed(errno: Errno)

  /** Parsing the text at the cursor: a malformed message leaves the cursor
      where it was; a parsed one moves it past the message, or clears it when
      nothing follows. */
  function ParseAt(text: string, inbox: seq<Chunk>, parse: string -> ParseResult)
    : (ReadResult, Option<string>, seq<Chunk>)
  {
    match parse(text)
    case Malformed => (Failed(EBadMsg), Some(text), inbox)
    case Parsed(m, rest) => (Got(m), if rest == [] then None else Some(rest), inbox)
  }

  /** `rfcomm_read_at` on values: the text still pending at the cursor (none
      when the cursor is clear) and the socket's queue, before and after. */
  function ReadStep(pending: Option<string>, inbox: seq<Chunk>, parse: string -> ParseResult)
    : (ReadResult, Option<string>, seq<Chunk>)
    requires pending.Some? || inbox != []
  {
    if pending.Some? then ParseAt(pending.value, inbox, parse)
    else
      var (c, inbox') := TakeRead(inbox, ReadLimit);
      match c
      case Fail(e) => (Failed(e), None, inbox')
      case Data(d) =>
        if d == [] then (Failed(EConnReset), None, inbox')
        else ParseAt(CStr(d), inbox', parse)
  }

  class Reader {
    const buffer: array<char>
    /** Where the last read put the terminating NUL. */
    var end: nat
    /** The cursor: offset of the next unparsed message, if any. */
    var next: Option<nat>

    ghost predicate Valid()
      reads this, buffer
    {
      buffer.Length == BufferSize && end < BufferSize && buffer[end] == Nul &&
      (next.Some? ==> next.value <= end)
    }

    /** The C string at the cursor. */
    ghost function Pending(): Option<string>
      reads this, buffer
      requires Valid()
    {
      if next.None? then None else Some(CStr(buffer[next.value..]))
    }

    constructor ()
      ensures Valid() && fresh(buffer) && Pending() == None
    {
      buffer := new char[BufferSize](_ => Nul);
      end := 0;
      next := None;
    }

    /** The caller's reset after a malformed message. */
    method Clear()
      requires Valid()
      modifies this`next
      ensures Valid() && Pending() == None && end == old(end)
    {
      next := None;
    }

    /** `rfcomm_read_at`. With a pending cursor no read is issued. */
    method ReadAt(sock: Socket, parse: string -> ParseResult) returns (r: ReadResult)
      requires Valid() && ParserValid(parse)
      requires next.Some? || sock.inbox != []
      modifies this, buffer, sock`inbox
      ensures Valid()
      ensures (r, Pending(), sock.inbox) == ReadStep(old(Pending()), old(sock.inbox), parse)
    {
      var start: nat;
      if next.None? {
        var c := Fill(sock);
        if c.Fail? {
          return Failed(c.errno);
        }
        if |c.bytes| == 0 {
          return Failed(EConnReset);
        }
        start := 0;
        assert buffer[start..] == buffer[..];
      } else {
        start := next.value;
      }
      r := ParseCursor(start, parse);
    }

    /** The `read` into the buffer and its terminating NUL; an error or an
        end of stream leaves the buffer alone. */
    method Fill(sock: Socket) returns (c: Chunk)
      requires Valid() && next.None? && sock.inbox != []
      modifies this`end, buffer, sock`inbox
      ensures Valid() && next == old(next)
      ensures (c, sock.inbox) == TakeRead(old(sock.inbox), ReadLimit)
      ensures c.Data? && c.bytes != [] ==> CStr(buffer[..]) == CStr(c.bytes)
      ensures !(c.Data? && c.bytes != []) ==> buffer[..] == old(buffer[..]) && end == old(end)
    {
      c := sock.Read(ReadLimit);
      if c.Fail? || |c.bytes| == 0 {
        return;
      }
      var d := c.bytes;
      forall i | 0 <= i < |d| {
        buffer[i] := d[i];
      }
      buffer[|d|] := Nul;
      end := |d|;
      assert buffer[..][..|d|] == d;
      CStrBefore(buffer[..], |d|);
    }

    /** Parsing at `start`: the cursor stays on a malformed message, moves
        past a parsed one, or is cleared when nothing follows it. */
    method ParseCursor(start: nat, parse: string -> ParseResult) returns (r: ReadResult)
      requires Valid() && start <= end && ParserValid(parse)
      modifies this`next
      ensures Valid()
      ensures var p := ParseAt(CStr(buffer[start..]), [], parse); r == p.0 && Pending() == p.1
    {
      ghost var s := buffer[start..];
      var q := CursorAfter(buffer[start..], end - start, parse);
      r := q.0;
      if q.1.None? {
        next := None;
      } else {
        assert s[q.1.value..] == buffer[start + q.1.value..];
        next := Some(start + q.1.value);
      }
    }
  }

  /** The outcome of parsing the C string in `s`, whose NUL is at `j` at the
      latest, and the offset the cursor moves to. */
  function CursorAfter(s: string, j: nat, parse: string -> ParseResult): (q: (ReadResult, Option<nat>))
    requires j < |s| && s[j] == Nul && ParserValid(parse)
    ensures q.0 == ParseAt(CStr(s), [], parse).0
    ensures q.1.None? <==> ParseAt(CStr(s), [], parse).1.None?
    ensures q.1.Some? ==> q.1.value <= j && Some(CStr(s[q.1.value..])) == ParseAt(CStr(s), [], parse).1
  {
    var text := CStr(s);
    match parse(text)
    case Malformed =>
      CStrBefore(s, j);
      (Failed(EBadMsg), Some(0))
    case Parsed(m, rest) =>
      if rest == [] then (Got(m), None)
      else
        CursorAdvance(s, j, rest);
        (Got(m), Some(|text| - |rest|))
  }

  /** Moving the cursor past a parsed message: the rest the parser left is
      the C string at the new cursor, which stays before the NUL at `j`. */
  lemma CursorAdvance(s: string, j: nat, rest: string)
    requires j < |s| && s[j] == Nul
    requires |rest| <= |CStr(s)| && rest == CStr(s)[|CStr(s)| - |rest|..]
    ensures |CStr(s)| - |rest| <= j
    ensures CStr(s[|CStr(s)| - |rest|..]) == rest
  {
    CStrBefore(s, j);
    CStrDrop(s, |CStr(s)| - |rest|);
  }

  /** The cursor invariant: what is pending is always a NUL-free suffix the
      parser has not consumed. A parse failure leaves the same text pending,
      so the same bytes fail again until the caller clears the cursor. */
  lemma MalformedRepeats(text: string, inbox: seq<Chunk>, parse: string -> ParseResult)
    requires parse(text).Malformed?
    ensures ReadStep(Some(text), inbox, parse) == (Failed(EBadMsg), Some(text), inbox)
    ensures ReadStep(ReadStep(Some(text), inbox, parse).1, inbox, parse) ==
      ReadStep(Some(text), inbox, parse)
  {
  }

  /** `parse` splits `text` into exactly the messages `msgs`. */
  ghost predicate SplitsInto(parse: string -> ParseResult, text: string, msgs: seq<AtMessage>)
    decreases |msgs|
  {
    if msgs == [] then text == []
    else (parse(text).Parsed? && parse(text).msg == msgs[0] &&
          SplitsInto(parse, parse(text).rest, msgs[1..]))
  }

  /** `n` consecutive calls of the reader. */
  function ReadMany(pending: Option<string>, inbox: seq<Chunk>, parse: string -> ParseResult, n: nat)
    : (seq<ReadResult>, Option<string>, seq<Chunk>)
    decreases n
  {
    if n == 0 || (pending.None? && inbox == []) then ([], pending, inbox)
    else
      var (r, p, q) := ReadStep(pending, inbox, parse);
      var (rs, p', q') := ReadMany(p, q, parse, n - 1);
      ([r] + rs, p', q')
  }

  function AllGot(msgs: seq<AtMessage>): (rs: seq<ReadResult>)
    ensures |rs| == |msgs| && forall i :: 0 <= i < |msgs| ==> rs[i] == Got(msgs[i])
  {
    if msgs == [] then [] else [Got(msgs[0])] + AllGot(msgs[1..])
  }

  /** Pending text holding K messages yields exactly those K messages, in
      order, without touching the socket, and leaves the cursor clear. */
  lemma {:induction false} DrainPending(parse: string -> ParseResult, text: string,
                                        msgs: seq<AtMessage>, inbox: seq<Chunk>)
    requires ParserValid(parse)
    requires msgs != [] && SplitsInto(parse, text, msgs)
    ensures ReadMany(Some(text), inbox, parse, |msgs|) == (AllGot(msgs), None, inbox)
    decreases |msgs|
  {
    var rest := parse(text).rest;
    if |msgs| > 1 {
      assert rest != [] by {
        assert parse(rest).Parsed?;
      }
      DrainPending(parse, rest, msgs[1..], inbox);
    } else {
      assert rest == [];
    }
  }

  /** K well-formed messages delivered by one read are each returned, in
      order, with that single read and no other. */
  lemma OneReadManyMessages(parse: string -> ParseResult, d: string,
                            msgs: seq<AtMessage>, inbox: seq<Chunk>)
    requires 0 < |d| <= ReadLimit && forall i :: 0 <= i < |d| ==> d[i] != Nul
    requires ParserValid(parse)
    requires msgs != [] && SplitsInto(parse, d, msgs)
    ensures ReadMany(None, [Data(d)] + inbox, parse, |msgs|) == (AllGot(msgs), None, inbox)
  {
    var q := [Data(d)] + inbox;
    assert TakeRead(q, ReadLimit) == (Data(d), inbox) by {
      assert q[0] == Data(d) && q[1..] == inbox;
    }
    assert CStr(d) == d;
    assert ReadStep(None, q, parse) == ParseAt(d, inbox, parse);
    if |msgs| > 1 {
      DrainPending(parse, parse(d).rest, msgs[1..], inbox);
      assert parse(d).rest != [] by {
        assert parse(parse(d).rest).Parsed?;
      }
    }
  }

  /** As written, a chunk of 256 bytes or more makes `read` return
      `sizeof(buffer)`, and `buffer[len] = '\0'` then writes one element past
      the end of the buffer. */
  lemma TerminatorOverrunAsWritten(d: string)
    requires |d| >= BufferSize
    ensures TakeRead([Data(d)], ReadLimitAsWritten).0 == Data(d[..BufferSize])
    ensures |TakeRead([Data(d)], ReadLimitAsWritten).0.bytes| == BufferSize
  {
  }

  /** With the corrected limit the terminator always lands inside the
      buffer. */
  lemma TerminatorInBounds(inbox: seq<Chunk>)
    requires inbox != []
    ensures TakeRead(inbox, ReadLimit).0.Data? ==>
      |TakeRead(inbox, ReadLimit).0.bytes| < BufferSize
  {
  }
}
