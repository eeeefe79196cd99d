/** The per-iteration logic of `rfcomm_thread`: running a callback, the
    dispatch of one received message, the SLC step with its retry policy, the
    gain resynchronisation, the external handler's traffic and the errno
    classification. */
module Engine {
  import opened Sys
  import opened CText
  import opened Hfp
  import opened At
  import opened Handlers
  import opened AtReader
  import opened Rfcomm
  import opened Slc
  import opened Effects

  // ---------------------------------------------------------------------
  // Running a callback

  /** `callback(&conn, &reader.at)`: the callback does to the connection,
      the transport and the socket what `Effect` says. */
  method Invoke(c: Conn, env: Env, cb: Callback, msg: AtMessage) returns (st: Status)
    requires c.Valid() && EnvValid(env)
    modifies c`state, c`handler, c`micGain, c`spkGain, c`msbc, c`indMap
    modifies c.t`hfpFeatures, c.t`codec, c.t`micGain, c.t`spkGain, c.t`battery
    modifies c.t`xapl, c.t`accevDocked, c.t`updates, c.t`pings, c.t.inds, c.t.sock`outbox
    ensures c.Valid()
    ensures (FieldsOf(c), st) == Effect(cb, env, msg, c.t.sock.writeError, old(FieldsOf(c)))
  {
    match cb
    case RespOk => st := HandleRespOk(c, msg);
    case CindTest => st := HandleCindTest(c);
    case CindGet => st := HandleCindGet(c);
    case CindRespTest => st := HandleCindRespTest(c, env, msg);
    case CindRespGet => st := HandleCindRespGet(c, msg);
    case CmerSet => st := HandleCmerSet(c);
    case CievResp => st := HandleCievResp(c, msg);
    case BiaSet => st := HandleBiaSet(c);
    case BrsfSet => st := HandleBrsfSet(c, env, msg);
    case BrsfResp => st := HandleBrsfResp(c, msg);
    case VgmSet => st := HandleVgmSet(c, msg);
    case VgsSet => st := HandleVgsSet(c, msg);
    case BtrhGet => st := HandleBtrhGet(c);
    case BcsSet => st := HandleBcsSet(c, msg);
    case RespBcsOk => st := HandleRespBcsOk(c, msg);
    case BcsResp => st := HandleBcsResp(c, msg);
    case BacSet => st := HandleBacSet(c, env, msg);
    case IphoneAccevSet => st := HandleIphoneAccevSet(c, msg);
    case XaplSet => st := HandleXaplSet(c, env, msg);
  }

  // ---------------------------------------------------------------------
  // Dispatch of one received message

  /** Lines 796-822: the expected handler is used (and cleared) when it
      matches, the table otherwise; a message the expected handler did not
      take is forwarded to the external handler, whose write errors are only
      reported; a command nobody handles is answered with ERROR. */
  method Dispatch(c: Conn, env: Env, msg: AtMessage) returns (st: Status)
    requires c.Valid() && EnvValid(env)
    modifies c`state, c`handler, c`micGain, c`spkGain, c`msbc, c`indMap
    modifies c.t`hfpFeatures, c.t`codec, c.t`micGain, c.t`spkGain, c.t`battery
    modifies c.t`xapl, c.t`accevDocked, c.t`updates, c.t`pings, c.t.inds, c.t.sock`outbox
    modifies c.t.ext`outbox
    ensures c.Valid()
    ensures (FieldsOf(c), st) ==
      DispatchEffect(env, msg, c.t.extAttached, c.t.sock.writeError, old(FieldsOf(c)))
    ensures c.t.ext.outbox == old(c.t.ext.outbox) +
      (if Route(old(c.handler), msg, c.t.extAttached).forward then Sent(c.t.ext, [msg]) else [])
  {
    var r := Route(c.handler, msg, c.t.extAttached);
    if r.consumed {
      c.handler := None;
    }
    if r.forward {
      var ignored := c.t.ext.Write(msg);
    }
    if r.callback.Some? {
      st := Invoke(c, env, r.callback.value, msg);
    } else if r.nack {
      st := c.t.sock.Write(ErrorReply);
    } else {
      st := Ok;
    }
  }

  // ---------------------------------------------------------------------
  // Gain resynchronisation

  /** Lines 757-779, on TRANSPORT_SET_VOLUME: each gain that changed is
      taken over and reported to the HF; a failed report of the microphone
      gain leaves the speaker gain as it was. */
  method GainSync(c: Conn) returns (st: Status)
    requires c.Valid()
    modifies c`micGain, c`spkGain, c.t.sock`outbox
    ensures c.Valid()
    ensures (FieldsOf(c), st) == GainEffect(old(FieldsOf(c)), c.t.sock.writeError)
  {
    ghost var f := FieldsOf(c);
    st := Ok;
    if c.micGain != c.t.micGain {
      c.micGain := c.t.micGain;
      st := c.t.sock.Write(VgmMessage(c.micGain));
      if st.Err? {
        assert FieldsOf(c) == f.(micGain := c.t.micGain);
        return;
      }
    }
    if c.spkGain != c.t.spkGain {
      c.spkGain := c.t.spkGain;
      st := c.t.sock.Write(VgsMessage(c.spkGain));
    }
    assert FieldsOf(c) == f.(micGain := c.micGain, spkGain := c.spkGain, outbox := c.t.sock.outbox);
    assert c.micGain == GainEffect(f, c.t.sock.writeError).0.micGain;
    assert c.spkGain == GainEffect(f, c.t.sock.writeError).0.spkGain;
    assert c.t.sock.outbox == GainEffect(f, c.t.sock.writeError).0.outbox;
    assert st == GainEffect(f, c.t.sock.writeError).1;
  }


  // ---------------------------------------------------------------------
  // The external handler

  /** Lines 830-851: up to 255 bytes from the external handler go to the
      peer verbatim; an error or an end of stream detaches the handler. */
  method RelayExt(c: Conn) returns (st: Status, chunk: Chunk)
    requires c.Valid() && c.t.ext.inbox != []
    modifies c.t.ext`inbox, c.t`extAttached, c.t.sock`outbox
    ensures c.Valid()
    ensures (chunk, c.t.ext.inbox) == TakeRead(old(c.t.ext.inbox), ReadLimit)
    ensures chunk.Fail? || chunk.bytes == [] ==>
      !c.t.extAttached && c.t.sock.outbox == old(c.t.sock.outbox) && st == Ok
    ensures chunk.Data? && chunk.bytes != [] ==>
      c.t.extAttached == old(c.t.extAttached) &&
      c.t.sock.outbox == old(c.t.sock.outbox) + Sent(c.t.sock, [AtMessage(Raw, CStr(chunk.bytes), "")]) &&
      st == WriteStatus(c.t.sock)
  {
    chunk := c.t.ext.Read(ReadLimit);
    if chunk.Fail? || |chunk.bytes| == 0 {
      Detach(c.t);
      return Ok, chunk;
    }
    st := c.t.sock.Write(AtMessage(Raw, CStr(chunk.bytes), ""));
  }

  /** Lines 853-858: `close(handler_fd)` and forget it. */
  method Detach(t: Transport)
    modifies t`extAttached
    ensures !t.extAttached
  {
    t.extAttached := false;
  }

  // ---------------------------------------------------------------------
  // Errors

  /** Lines 860-872: a disconnection ends the thread; any other I/O error is
      reported and the loop goes on. */
  predicate IsFatal(e: Errno)
  {
    e == EConnAborted || e == EConnReset || e == ENotConn || e == ENotSup || e == ETimedOut
  }

  /** How the loop goes on after an error. */
  datatype Next = Continue | Exit(errno: Errno)

  function OnError(e: Errno): (n: Next)
    ensures n.Exit? <==> IsFatal(e)
    ensures n.Exit? ==> n.errno == e
  {
    if IsFatal(e) then Exit(e) else Continue
  }

  /** The errors the engine raises itself end the thread: an end of stream
      on the socket, the SLC timeout and an ERROR answer during the
      procedure; a malformed message and a generic I/O error do not. */
  lemma EngineErrorsFatal()
    ensures IsFatal(EConnReset) && IsFatal(ETimedOut) && IsFatal(ENotSup)
    ensures !IsFatal(EBadMsg) && !IsFatal(EIo)
  {
  }

  // ---------------------------------------------------------------------
  // One iteration of the loop

  /** What `poll` reports for the signal pipe, the RFCOMM socket and the
      external handler. */
  datatype Revents = Revents(signal: bool, sockIn: bool, sockHup: bool, extIn: bool, extHup: bool)

  datatype PollOutcome = TimedOut | Interrupted | PollFailed(errno: Errno) | Ready(revents: Revents)

  /** What `ba_transport_recv_signal` returns. */
  datatype Signal = SetVolume | OtherSignal

  /** Everything one pass of the loop reads and changes, as one value: the
      connection's fields, the text pending at the reader's cursor, what the
      socket and the external handler still have to deliver, what was
      forwarded to the external handler, and whether it is attached. */
  datatype World = World(conn: Fields, pending: Option<string>, sockIn: seq<Chunk>,
                         extIn: seq<Chunk>, extOut: seq<AtMessage>, attached: bool)

  /** `poll`, as a function of its timeout: a readiness report is true to
      the queues it describes (the external handler's descriptor is -1, so
      never reported, while detached). */
  ghost predicate PollValid(poll: int -> PollOutcome, w: World)
  {
    forall timeout :: poll(timeout).Ready? ==>
      (poll(timeout).revents.sockIn ==> w.sockIn != []) &&
      (poll(timeout).revents.extIn ==> w.extIn != [] && w.attached) &&
      (poll(timeout).revents.extHup ==> w.attached)
  }

  /** Lines 796-824 on values: a message that was read is dispatched (and
      forwarded, if the routing says so); whether the pass stops here, and
      how the loop goes on. */
  function DeliverSpec(w: World, env: Env, msg: AtMessage, werr: Option<Errno>, extWerr: Option<Errno>)
    : (r: (World, bool, Next))
    requires FieldsValid(w.conn) && CindParserValid(env.parseCind)
    ensures FieldsValid(r.0.conn) && w.conn.state <= r.0.conn.state
    ensures r.0 == w.(conn := r.0.conn, extOut := r.0.extOut) && w.extOut <= r.0.extOut
    ensures r.2.Exit? ==> r.1 && IsFatal(r.2.errno)
    ensures !r.1 ==> r.2 == Continue
  {
    var d := DispatchEffect(env, msg, w.attached, werr, w.conn);
    DispatchSpec(env, msg, w.attached, werr, w.conn);
    var forward := Route(w.conn.handler, msg, w.attached).forward;
    var w1 := w.(conn := d.0, extOut := w.extOut + (if forward then SentOn(extWerr, [msg]) else []));
    if d.1.Err? then (w1, true, OnError(d.1.errno)) else (w1, false, Continue)
  }

  /** Lines 786-824 on values: one message is read (the pending one first)
      and delivered; a malformed message is dropped with the rest of the
      buffer, and a failed read stops the pass. */
  function ReceiveSpec(w: World, env: Env, werr: Option<Errno>, extWerr: Option<Errno>)
    : (r: (World, bool, Next))
    requires w.pending.Some? || w.sockIn != []
    requires FieldsValid(w.conn) && CindParserValid(env.parseCind)
    ensures FieldsValid(r.0.conn) && w.conn.state <= r.0.conn.state
    ensures r.0.extIn == w.extIn && r.0.attached == w.attached
    ensures r.2.Exit? ==> r.1 && IsFatal(r.2.errno)
    ensures !r.1 ==> r.2 == Continue
  {
    var (res, pending, inbox) := ReadStep(w.pending, w.sockIn, env.parse);
    var w1 := w.(pending := pending, sockIn := inbox);
    match res
    case Failed(e) =>
      if e == EBadMsg then (w1.(pending := None), true, Continue) else (w1, true, OnError(e))
    case Got(msg) => DeliverSpec(w1, env, msg, werr, extWerr)
  }

  /** Lines 830-858 on values: a report of data from the external handler
      relays up to 255 bytes of it to the socket, an error or end of stream
      detaches it; a hang-up alone detaches it. */
  function ExtSpec(w: World, rev: Revents, werr: Option<Errno>): (r: (World, Next))
    requires rev.extIn ==> w.extIn != []
    ensures r.0.conn == w.conn.(outbox := r.0.conn.outbox) && w.conn.outbox <= r.0.conn.outbox
    ensures r.0.pending == w.pending && r.0.sockIn == w.sockIn && r.0.extOut == w.extOut
    ensures r.1.Exit? ==> IsFatal(r.1.errno)
  {
    if rev.extIn then
      var (chunk, rest) := TakeRead(w.extIn, ReadLimit);
      var w1 := w.(extIn := rest);
      if chunk.Fail? || chunk.bytes == [] then (w1.(attached := false), Continue)
      else
        (w1.(conn := w.conn.(outbox := w.conn.outbox + SentOn(werr, [AtMessage(Raw, CStr(chunk.bytes), "")]))),
         if werr.Some? then OnError(werr.value) else Continue)
    else if rev.extHup then (w.(attached := false), Continue)
    else (w, Continue)
  }

  /** Lines 786-858 on values, once `poll` reported `rev` and any volume
      change went out: the socket (a message, or a hang-up that ends the
      connection), then the external handler. */
  function ServeSocketSpec(w: World, env: Env, rev: Revents, werr: Option<Errno>, extWerr: Option<Errno>)
    : (r: (World, Next))
    requires w.pending.None? && (rev.sockIn ==> w.sockIn != []) && (rev.extIn ==> w.extIn != [])
    requires FieldsValid(w.conn) && CindParserValid(env.parseCind)
    ensures FieldsValid(r.0.conn) && w.conn.state <= r.0.conn.state
    ensures r.1.Exit? ==> IsFatal(r.1.errno)
  {
    if rev.sockIn then
      var (w1, stop, next) := ReceiveSpec(w, env, werr, extWerr);
      if stop then (w1, next) else ExtSpec(w1, rev, werr)
    else if rev.sockHup then (w, OnError(EConnReset))
    else ExtSpec(w, rev, werr)
  }

  /** Lines 757-858 on values, once `poll` reported `rev`: the signal (a
      volume change resynchronises the gains), then the socket and the
      external handler. */
  function ServeSpec(w: World, env: Env, rev: Revents, sig: Signal,
                     werr: Option<Errno>, extWerr: Option<Errno>): (r: (World, Next))
    requires w.pending.None? && (rev.sockIn ==> w.sockIn != []) && (rev.extIn ==> w.extIn != [])
    requires FieldsValid(w.conn) && CindParserValid(env.parseCind)
    ensures FieldsValid(r.0.conn) && w.conn.state <= r.0.conn.state
    ensures r.1.Exit? ==> IsFatal(r.1.errno)
  {
    var g := if rev.signal && sig == SetVolume then GainEffect(w.conn, werr) else (w.conn, Ok);
    var w1 := w.(conn := g.0);
    if g.1.Err? then (w1, OnError(g.1.errno))
    else ServeSocketSpec(w1, env, rev, werr, extWerr)
  }

  /** The SLC step keeps the fields valid and never lowers the state. */
  lemma StepValid(f: Fields, m: Move, werr: Option<Errno>)
    requires FieldsValid(f) && InEnum(m.state) && f.state <= m.state
    ensures var g := WithSlcPart(f, Step(SlcPart(f), m, werr).0);
      FieldsValid(g) && f.state <= g.state
  {
  }

  /** Lines 745-858 on values, after the SLC step chose `timeout`: the
      buffered message without `poll` (`goto read`), or `poll` and what it
      reports. */
  function AwaitSpec(w: World, env: Env, poll: int -> PollOutcome, timeout: int, sig: Signal,
                     werr: Option<Errno>, extWerr: Option<Errno>): (r: (World, Next))
    requires FieldsValid(w.conn) && CindParserValid(env.parseCind) && PollValid(poll, w)
    ensures FieldsValid(r.0.conn) && w.conn.state <= r.0.conn.state
  {
    if w.pending.Some? then
      var (w1, _, next) := ReceiveSpec(w, env, werr, extWerr);
      (w1, next)
    else
      match poll(timeout)
      case TimedOut => (w, Continue)
      case Interrupted => (w, Continue)
      case PollFailed(e) => (w, Exit(e))
      case Ready(rev) => ServeSpec(w, env, rev, sig, werr, extWerr)
  }

  /** One pass of the loop of `rfcomm_thread` (lines 601-873) on values:
      the SLC step, then the wait for and the handling of what comes in. */
  function PassSpec(w: World, env: Env, profile: Profile, poll: int -> PollOutcome, sig: Signal,
                    werr: Option<Errno>, extWerr: Option<Errno>): (r: (World, Next))
    requires FieldsValid(w.conn) && CindParserValid(env.parseCind) && PollValid(poll, w)
    ensures FieldsValid(r.0.conn) && w.conn.state <= r.0.conn.state
  {
    var m := MoveFor(profile, w.conn.state, w.conn.features, w.conn.msbc, env);
    MoveAdvances(profile, w.conn.state, w.conn.features, w.conn.msbc, env);
    var (v, step) := Step(SlcPart(w.conn), m, werr);
    StepValid(w.conn, m, werr);
    var w1 := w.(conn := WithSlcPart(w.conn, v));
    match step
    case Abort(e) => (w1, OnError(e))
    case Poll(timeout) => AwaitSpec(w1, env, poll, timeout, sig, werr, extWerr)
  }

  // ---------------------------------------------------------------------
  // What one pass promises

  /** A pass ends the connection only on an error that `IsFatal` names or
      on a failure of `poll` itself, with either timeout the step chooses. */
  lemma PassExit(w: World, env: Env, profile: Profile, poll: int -> PollOutcome, sig: Signal,
                 werr: Option<Errno>, extWerr: Option<Errno>)
    requires FieldsValid(w.conn) && CindParserValid(env.parseCind) && PollValid(poll, w)
    ensures var next := PassSpec(w, env, profile, poll, sig, werr, extWerr).1;
      next.Exit? ==>
        IsFatal(next.errno) || poll(-1) == PollFailed(next.errno) ||
        poll(SlcTimeout) == PollFailed(next.errno)
  {
    var m := MoveFor(profile, w.conn.state, w.conn.features, w.conn.msbc, env);
    var step := Step(SlcPart(w.conn), m, werr).1;
    assert step.Poll? ==> step.timeout == -1 || step.timeout == SlcTimeout;
  }

  /** With a message still buffered the pass does not call `poll` (`goto
      read`): it does not depend on what `poll` would report, and it leaves
      the external handler alone. */
  lemma BufferedSkipsPoll(w: World, env: Env, profile: Profile, poll: int -> PollOutcome,
                          other: int -> PollOutcome, sig: Signal, werr: Option<Errno>, extWerr: Option<Errno>)
    requires FieldsValid(w.conn) && CindParserValid(env.parseCind)
    requires PollValid(poll, w) && PollValid(other, w)
    requires w.pending.Some?
    ensures PassSpec(w, env, profile, poll, sig, werr, extWerr) == PassSpec(w, env, profile, other, sig, werr, extWerr)
    ensures var r := PassSpec(w, env, profile, poll, sig, werr, extWerr).0;
      r.extIn == w.extIn && r.attached == w.attached && w.extOut <= r.extOut
  {
  }

  /** A hang-up of the socket with nothing to read ends the connection with
      ECONNRESET (lines 825-828), once a volume change, if any, went out. */
  lemma HangupResets(w: World, env: Env, rev: Revents, sig: Signal, werr: Option<Errno>, extWerr: Option<Errno>)
    requires w.pending.None? && (rev.extIn ==> w.extIn != [])
    requires FieldsValid(w.conn) && CindParserValid(env.parseCind)
    requires rev.sockHup && !rev.sockIn
    ensures var r := ServeSpec(w, env, rev, sig, werr, extWerr);
      r.1 == Exit(EConnReset) || (rev.signal && sig == SetVolume && werr.Some? && r.1 == OnError(werr.value))
    ensures !(rev.signal && sig == SetVolume) ==> ServeSpec(w, env, rev, sig, werr, extWerr) == (w, Exit(EConnReset))
  {
    assert w.(conn := w.conn) == w;
  }

  /** The external handler is read only when `poll` reported it, and only
      a report or a hang-up of it detaches it; a read of it relays what it
      sent to the socket unchanged. */
  lemma ExtOnlyWhenReported(w: World, env: Env, rev: Revents, sig: Signal, werr: Option<Errno>, extWerr: Option<Errno>)
    requires w.pending.None? && (rev.sockIn ==> w.sockIn != []) && (rev.extIn ==> w.extIn != [])
    requires FieldsValid(w.conn) && CindParserValid(env.parseCind)
    ensures var r := ServeSpec(w, env, rev, sig, werr, extWerr).0;
      (!rev.extIn ==> r.extIn == w.extIn) &&
      (!rev.extIn && !rev.extHup ==> r.attached == w.attached)
    ensures rev.extIn && werr.None? ==>
      var (chunk, rest) := TakeRead(w.extIn, ReadLimit);
      var r := ExtSpec(w, rev, werr).0;
      r.extIn == rest &&
      (chunk.Data? && chunk.bytes != [] ==> r.conn.outbox == w.conn.outbox + [AtMessage(Raw, CStr(chunk.bytes), "")])
  {
  }

  /** The readiness of the external handler that lines 830-858 test, as
      written: after `goto read` skipped `poll`, `pfds` still holds what the
      previous `poll` reported. */
  function ExtReadyAsWritten(skippedPoll: bool, previous: Revents, current: Revents): bool
  {
    if skippedPoll then previous.extIn else current.extIn
  }

  /** Lines 830-858 as written, serving the external handler on the
      readiness `ready` and hang-up `hup` that `pfds[2]` holds: a read with
      nothing queued waits on the blocking descriptor and the pass does not
      end (`None`); otherwise it is the step `ExtSpec` describes. */
  function ExtStepAsWritten(w: World, ready: bool, hup: bool, werr: Option<Errno>): Option<(World, Next)>
  {
    if ready && w.extIn == [] then None
    else Some(ExtSpec(w, Revents(false, false, false, ready, hup), werr))
  }

  /** Lines 786-858 as written after `goto read`: the buffered message is
      received and delivered, then the external handler is served on what
      the previous `poll` reported, whatever was reported since. */
  function AwaitBufferedAsWritten(w: World, env: Env, previous: Revents, current: Revents,
                                  werr: Option<Errno>, extWerr: Option<Errno>): Option<(World, Next)>
    requires w.pending.Some?
    requires FieldsValid(w.conn) && CindParserValid(env.parseCind)
  {
    var (w1, stop, next) := ReceiveSpec(w, env, werr, extWerr);
    if stop then Some((w1, next))
    else ExtStepAsWritten(w1, ExtReadyAsWritten(true, previous, current), previous.extHup, werr)
  }

  /** As written, a pass that serves a buffered message after the previous
      `poll` reported data from the external handler, which was read then,
      reads the handler again with nothing queued: unless the message
      itself stopped the pass, the pass never ends, whatever was reported
      since. The pass modelled here always ends, and leaves the handler and
      its queue alone. */
  lemma StaleExtReadAsWritten(w: World, env: Env, profile: Profile, poll: int -> PollOutcome, sig: Signal,
                              werr: Option<Errno>, extWerr: Option<Errno>, previous: Revents)
    requires FieldsValid(w.conn) && CindParserValid(env.parseCind) && PollValid(poll, w)
    requires w.pending.Some? && w.extIn == [] && previous.extIn
    ensures forall current ::
              AwaitBufferedAsWritten(w, env, previous, current, werr, extWerr).None? <==>
              !ReceiveSpec(w, env, werr, extWerr).1
    ensures forall timeout ::
              AwaitSpec(w, env, poll, timeout, sig, werr, extWerr) ==
              (ReceiveSpec(w, env, werr, extWerr).0, ReceiveSpec(w, env, werr, extWerr).2)
    ensures PassSpec(w, env, profile, poll, sig, werr, extWerr).0.extIn == []
    ensures PassSpec(w, env, profile, poll, sig, werr, extWerr).0.attached == w.attached
  {
    BufferedSkipsPoll(w, env, profile, poll, poll, sig, werr, extWerr);
  }

  /** The engine of one RFCOMM connection: the connection record and the
      message reader. */
  class Session {
    const c: Conn
    const reader: Reader

    ghost predicate Valid()
      reads this, c, c.t, reader, reader.buffer
    {
      c.Valid() && reader.Valid()
    }

    ghost function WorldOf(): World
      reads this, c, c.t, c.t.inds, c.t.sock, c.t.ext, reader, reader.buffer
      requires reader.Valid()
    {
      World(FieldsOf(c), reader.Pending(), c.t.sock.inbox, c.t.ext.inbox, c.t.ext.outbox, c.t.extAttached)
    }

    /** The initialisation at the start of `rfcomm_thread`. */
    constructor (t: Transport)
      requires t.Valid()
      ensures Valid() && c.t == t && fresh(c) && fresh(reader) && fresh(reader.buffer)
      ensures c.state == Disconnected && c.handler == None && reader.Pending() == None
    {
      c := new Conn(t);
      reader := new Reader();
    }

    /** Lines 796-824: dispatch a message that was read. */
    method Deliver(env: Env, msg: AtMessage) returns (stop: bool, next: Next)
      requires Valid() && EnvValid(env)
      modifies c`state, c`handler, c`micGain, c`spkGain, c`msbc, c`indMap
      modifies c.t`hfpFeatures, c.t`codec, c.t`micGain, c.t`spkGain, c.t`battery
      modifies c.t`xapl, c.t`accevDocked, c.t`updates, c.t`pings, c.t.inds, c.t.sock`outbox
      modifies c.t.ext`outbox
      ensures Valid()
      ensures (WorldOf(), stop, next) ==
        DeliverSpec(old(WorldOf()), env, msg, c.t.sock.writeError, c.t.ext.writeError)
    {
      var st := Dispatch(c, env, msg);
      if st.Err? {
        return true, OnError(st.errno);
      }
      return false, Continue;
    }

    /** Lines 786-824: read one message (the buffered one first) and
        deliver it. */
    method Receive(env: Env) returns (stop: bool, next: Next)
      requires Valid() && EnvValid(env)
      requires reader.next.Some? || c.t.sock.inbox != []
      modifies reader, reader.buffer, c.t.sock`inbox
      modifies c`state, c`handler, c`micGain, c`spkGain, c`msbc, c`indMap
      modifies c.t`hfpFeatures, c.t`codec, c.t`micGain, c.t`spkGain, c.t`battery
      modifies c.t`xapl, c.t`accevDocked, c.t`updates, c.t`pings, c.t.inds, c.t.sock`outbox
      modifies c.t.ext`outbox
      ensures Valid()
      ensures (WorldOf(), stop, next) ==
        ReceiveSpec(old(WorldOf()), env, c.t.sock.writeError, c.t.ext.writeError)
    {
      ghost var w0 := WorldOf();
      ghost var rs := ReadStep(w0.pending, w0.sockIn, env.parse);
      var m := reader.ReadAt(c.t.sock, env.parse);
      assert FieldsOf(c) == w0.conn;
      assert WorldOf() == w0.(pending := rs.1, sockIn := rs.2);
      if m.Failed? {
        if m.errno == EBadMsg {
          reader.Clear();
          return true, Continue;
        }
        return true, OnError(m.errno);
      }
      stop, next := Deliver(env, m.msg);
    }

    /** Lines 786-858, once `poll` reported `rev`: the socket, then the
        external handler. */
    method ServeSocket(env: Env, rev: Revents) returns (next: Next)
      requires Valid() && EnvValid(env)
      requires rev.sockIn ==> c.t.sock.inbox != []
      requires rev.extIn ==> c.t.ext.inbox != []
      requires reader.next == None
      modifies reader, reader.buffer, c.t.sock`inbox, c.t.ext`inbox, c.t`extAttached
      modifies c`state, c`handler, c`micGain, c`spkGain, c`msbc, c`indMap
      modifies c.t`hfpFeatures, c.t`codec, c.t`micGain, c.t`spkGain, c.t`battery
      modifies c.t`xapl, c.t`accevDocked, c.t`updates, c.t`pings, c.t.inds, c.t.sock`outbox
      modifies c.t.ext`outbox
      ensures Valid()
      ensures (WorldOf(), next) ==
        ServeSocketSpec(old(WorldOf()), env, rev, c.t.sock.writeError, c.t.ext.writeError)
    {
      if rev.sockIn {
        var stop;
        stop, next := Receive(env);
        if stop {
          return;
        }
      } else if rev.sockHup {
        return OnError(EConnReset);
      }
      next := ServeExt(rev);
    }

    /** Lines 757-858, once `poll` reported `rev`. */
    method Serve(env: Env, rev: Revents, sig: Signal) returns (next: Next)
      requires Valid() && EnvValid(env)
      requires rev.sockIn ==> c.t.sock.inbox != []
      requires rev.extIn ==> c.t.ext.inbox != []
      requires reader.next == None
      modifies reader, reader.buffer, c.t.sock`inbox, c.t.ext`inbox, c.t`extAttached
      modifies c`state, c`handler, c`micGain, c`spkGain, c`msbc, c`indMap
      modifies c.t`hfpFeatures, c.t`codec, c.t`micGain, c.t`spkGain, c.t`battery
      modifies c.t`xapl, c.t`accevDocked, c.t`updates, c.t`pings, c.t.inds, c.t.sock`outbox
      modifies c.t.ext`outbox
      ensures Valid()
      ensures (WorldOf(), next) ==
        ServeSpec(old(WorldOf()), env, rev, sig, c.t.sock.writeError, c.t.ext.writeError)
    {
      if rev.signal && sig == SetVolume {
        ghost var w0 := WorldOf();
        var st := GainSync(c);
        assert WorldOf() == w0.(conn := FieldsOf(c));
        if st.Err? {
          return OnError(st.errno);
        }
      }
      next := ServeSocket(env, rev);
    }

    /** Lines 830-858: the external handler's traffic. */
    method ServeExt(rev: Revents) returns (next: Next)
      requires Valid()
      requires rev.extIn ==> c.t.ext.inbox != []
      modifies c.t.ext`inbox, c.t`extAttached, c.t.sock`outbox
      ensures Valid()
      ensures (WorldOf(), next) == ExtSpec(old(WorldOf()), rev, c.t.sock.writeError)
    {
      if rev.extIn {
        var st, chunk := RelayExt(c);
        if st.Err? {
          return OnError(st.errno);
        }
      } else if rev.extHup {
        Detach(c.t);
      }
      return Continue;
    }

    /** Lines 745-858, after the SLC step chose `timeout`: `goto read`
        skips `poll` while a message is buffered. */
    method Await(env: Env, poll: int -> PollOutcome, timeout: int, sig: Signal) returns (next: Next)
      requires Valid() && EnvValid(env) && PollValid(poll, WorldOf())
      modifies reader, reader.buffer, c.t.sock`inbox, c.t.ext`inbox, c.t`extAttached
      modifies c`state, c`handler, c`micGain, c`spkGain, c`msbc, c`indMap
      modifies c.t`hfpFeatures, c.t`codec, c.t`micGain, c.t`spkGain, c.t`battery
      modifies c.t`xapl, c.t`accevDocked, c.t`updates, c.t`pings, c.t.inds, c.t.sock`outbox
      modifies c.t.ext`outbox
      ensures Valid()
      ensures (WorldOf(), next) ==
        AwaitSpec(old(WorldOf()), env, poll, timeout, sig, c.t.sock.writeError, c.t.ext.writeError)
    {
      if reader.next.Some? {
        var stop;
        stop, next := Receive(env);
        return;
      }
      var p := poll(timeout);
      match p {
        case TimedOut =>
          return Continue;
        case Interrupted =>
          return Continue;
        case PollFailed(e) =>
          return Exit(e);
        case Ready(rev) =>
          next := Serve(env, rev, sig);
      }
    }

    /** Lines 601-743: the SLC step, on the session's world. */
    method StepSlc(env: Env) returns (r: StepResult)
      requires Valid()
      modifies c`state, c`statePrev, c`retries, c`handler, c.t`codec, c.t`updates, c.t.sock`outbox
      ensures Valid()
      ensures var w := old(WorldOf());
        var (v, step) := Step(SlcPart(w.conn), MoveFor(c.t.profile, w.conn.state, w.conn.features, w.conn.msbc, env),
                              c.t.sock.writeError);
        WorldOf() == w.(conn := WithSlcPart(w.conn, v)) && r == step
    {
      ghost var w0 := WorldOf();
      assert SlcPart(w0.conn) == ViewOf(c);
      r := SlcStep(c, env);
      assert FieldsOf(c) == WithSlcPart(w0.conn, ViewOf(c));
    }

    /** One pass of the loop of `rfcomm_thread` (lines 601-873). */
    method Iterate(env: Env, poll: int -> PollOutcome, sig: Signal) returns (next: Next)
      requires Valid() && EnvValid(env) && PollValid(poll, WorldOf())
      modifies reader, reader.buffer, c.t.sock`inbox, c.t.ext`inbox, c.t`extAttached
      modifies c`state, c`statePrev, c`retries, c`handler, c`micGain, c`spkGain, c`msbc, c`indMap
      modifies c.t`hfpFeatures, c.t`codec, c.t`micGain, c.t`spkGain, c.t`battery
      modifies c.t`xapl, c.t`accevDocked, c.t`updates, c.t`pings, c.t.inds, c.t.sock`outbox
      modifies c.t.ext`outbox
      ensures Valid()
      ensures (WorldOf(), next) ==
        PassSpec(old(WorldOf()), env, c.t.profile, poll, sig, c.t.sock.writeError, c.t.ext.writeError)
    {
      var r := StepSlc(env);
      if r.Abort? {
        return OnError(r.errno);
      }
      next := Await(env, poll, r.timeout, sig);
    }
  }
}
