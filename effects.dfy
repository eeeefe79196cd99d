/** The connection, transport and socket fields the engine changes, as one
    value, and what each message callback, a dispatch and a gain
    resynchronisation make of them: the reference the methods of the engine
    are proved against. */
module Effects {
  import opened Sys
  import opened CText
  import opened Hfp
  import opened At
  import opened Handlers
  import opened AtReader
  import opened Rfcomm
  import opened Slc

  /** The fields the SLC step reads and writes. */
  function SlcPart(f: Fields): SlcView
  {
    SlcView(f.state, f.statePrev, f.retries, f.handler, f.codec, f.updates, f.outbox)
  }

  function WithSlcPart(f: Fields, v: SlcView): Fields
  {
    f.(state := v.state, statePrev := v.statePrev, retries := v.retries, handler := v.handler,
       codec := v.codec, updates := v.updates, outbox := v.outbox)
  }

  // ---------------------------------------------------------------------
  // The callbacks

  /** What callback `cb` does with `msg`, on a socket whose writes fail with
      `werr`, if set: the new fields and the callback's status. */
  function Effect(cb: Callback, env: Env, msg: AtMessage, werr: Option<Errno>, f: Fields)
    : (r: (Fields, Status))
    requires FieldsValid(f) && CindParserValid(env.parseCind)
    ensures FieldsValid(r.0)
  {
    match cb
    case RespOk => (f.(state := RespOkState(f.state, msg)), RespOkStatus(msg))
    case CindTest => Reply(f, werr, [CindTestReply, OkReply], Some(SlcCindTestOk))
    case CindGet => Reply(f, werr, [CindGetReply, OkReply], Some(SlcCindGetOk))
    case CindRespTest =>
      (f.(indMap := env.parseCind(msg.value, f.indMap).written, state := Raise(f.state, SlcCindTest)), Ok)
    case CindRespGet => (CindValuesEffect(f, msg.value), Ok)
    case CmerSet => Reply(f, werr, [OkReply], Some(SlcCmerSetOk))
    case CievResp => (CievEffect(f, msg.value), Ok)
    case BiaSet => Reply(f, werr, [OkReply], None)
    case BrsfSet =>
      Reply(WithFeatures(f, U32(Atoi(msg.value)), HfFeatCodec), werr,
            [AtMessage(Resp, "+BRSF", DecimalString(env.agFeatures)), OkReply], Some(SlcBrsfSetOk))
    case BrsfResp =>
      (WithFeatures(f, U32(Atoi(msg.value)), AgFeatCodec).(state := Raise(f.state, SlcBrsfSet)), Ok)
    case VgmSet =>
      var n := Atoi(msg.value);
      Reply(f.(micGain := n, tMic := n, updates := f.updates + (if werr.None? then [UpdateVolume] else [])),
            werr, [OkReply], None)
    case VgsSet =>
      var n := Atoi(msg.value);
      Reply(f.(spkGain := n, tSpk := n, updates := f.updates + (if werr.None? then [UpdateVolume] else [])),
            werr, [OkReply], None)
    case BtrhGet => Reply(f, werr, [OkReply], None)
    case BcsSet =>
      if f.codec != Atoi(msg.value) then Reply(f, werr, [ErrorReply], None)
      else Reply(f, werr, [OkReply], Some(CcBcsSetOk))
    case RespBcsOk =>
      (f.(state := RespOkState(f.state, msg),
          updates := f.updates + (if RespOkStatus(msg).Ok? then [UpdateSamplingCodec] else [])), RespOkStatus(msg))
    case BcsResp =>
      Reply(f.(codec := Atoi(msg.value), handler := if werr.None? then Some(RespBcsOkHandler) else f.handler),
            werr, [AtMessage(CmdSet, "+BCS", msg.value)], Some(CcBcsSet))
    case BacSet =>
      Reply(f.(msbc := f.msbc || (env.msbcEnabled && CodecMsbc in FieldValues(msg.value))),
            werr, [OkReply], Some(SlcBacSetOk))
    case IphoneAccevSet => Reply(AccevEffect(f, msg.value), werr, [OkReply], None)
    case XaplSet =>
      var x := env.scanXapl(msg.value);
      if x.Some? then Reply(f.(xapl := x.value), werr, [XaplReply], None)
      else Reply(f, werr, [ErrorReply], None)
  }

  /** Whichever callback runs, the state never goes down, the SLC retry
      bookkeeping is left alone, only the +BCS response installs an expected
      handler, replies are only appended (none on a broken socket), and a
      failure is either the socket's write error or the ENOTSUP of an ERROR
      response. */
  lemma EffectEnvelope(cb: Callback, env: Env, msg: AtMessage, werr: Option<Errno>, f: Fields)
    requires FieldsValid(f) && CindParserValid(env.parseCind)
    ensures var (g, st) := Effect(cb, env, msg, werr, f);
      && f.state <= g.state
      && g.statePrev == f.statePrev && g.retries == f.retries
      && (g.handler == f.handler || (cb == BcsResp && g.handler == Some(RespBcsOkHandler)))
      && f.outbox <= g.outbox
      && (werr.Some? ==> g.outbox == f.outbox)
      && (st.Err? ==>
            st == StatusOn(werr) ||
            (st == Err(ENotSup) && msg.value == "ERROR" && (cb == RespOk || cb == RespBcsOk)))
  {
  }

  /** Only AT+BRSF, AT+BCS and the AG's +BRSF and +BCS answers touch the
      codec, and only the callbacks of the SLC procedure and of codec
      connection setup move the state. */
  lemma EffectCodecAndState(cb: Callback, env: Env, msg: AtMessage, werr: Option<Errno>, f: Fields)
    requires FieldsValid(f) && CindParserValid(env.parseCind)
    ensures cb !in {BrsfSet, BrsfResp, BcsResp} ==> Effect(cb, env, msg, werr, f).0.codec == f.codec
    ensures cb in {CievResp, BiaSet, VgmSet, VgsSet, BtrhGet, IphoneAccevSet, XaplSet} ==>
      Effect(cb, env, msg, werr, f).0.state == f.state
  {
  }

  // ---------------------------------------------------------------------
  // One dispatch

  /** Lines 796-822 on the fields: the expected handler is cleared when it
      takes the message; the callback the routing chose runs; a command
      nobody handles gets ERROR. (The copy forwarded to the external
      handler is not part of these fields.) */
  function DispatchEffect(env: Env, msg: AtMessage, extAttached: bool, werr: Option<Errno>, f: Fields)
    : (r: (Fields, Status))
    requires FieldsValid(f) && CindParserValid(env.parseCind)
    ensures FieldsValid(r.0)
  {
    var route := Route(f.handler, msg, extAttached);
    var f1 := if route.consumed then f.(handler := None) else f;
    if route.callback.Some? then Effect(route.callback.value, env, msg, werr, f1)
    else if route.nack then (f1.(outbox := f1.outbox + SentOn(werr, [ErrorReply])), StatusOn(werr))
    else (f1, Ok)
  }

  /** A dispatch never lowers the state; an expected handler that took the
      message is gone afterwards (unless the +BCS answer installed the next
      one), one that did not is kept; a message no callback takes leaves the
      state and gets ERROR exactly when it is a command and no external
      handler is attached; and an OK no handler expects changes nothing. */
  lemma DispatchSpec(env: Env, msg: AtMessage, extAttached: bool, werr: Option<Errno>, f: Fields)
    requires FieldsValid(f) && CindParserValid(env.parseCind)
    ensures var (g, st) := DispatchEffect(env, msg, extAttached, werr, f);
      var route := Route(f.handler, msg, extAttached);
      && f.state <= g.state && f.outbox <= g.outbox
      && g.statePrev == f.statePrev && g.retries == f.retries
      && (route.callback != Some(BcsResp) ==> g.handler == if route.consumed then None else f.handler)
      && (route.callback.None? ==>
            g.state == f.state &&
            g.outbox == f.outbox + (if route.nack then SentOn(werr, [ErrorReply]) else []) &&
            st == (if route.nack then StatusOn(werr) else Ok))
      && (st.Err? ==> st == StatusOn(werr) || st == Err(ENotSup))
    ensures f.handler.None? && msg.kind == Resp && msg.command == "" ==>
      DispatchEffect(env, msg, extAttached, werr, f) == (f, Ok)
  {
    var route := Route(f.handler, msg, extAttached);
    var f1 := if route.consumed then f.(handler := None) else f;
    if route.callback.Some? {
      EffectEnvelope(route.callback.value, env, msg, werr, f1);
    }
    if f.handler.None? && msg.kind == Resp && msg.command == "" {
      UnexpectedResponseIgnored(msg, extAttached);
    }
  }

  // ---------------------------------------------------------------------
  // Gain resynchronisation

  function VgmMessage(gain: int): AtMessage { AtMessage(Resp, "", "+VGM=" + DecimalString(gain)) }
  function VgsMessage(gain: int): AtMessage { AtMessage(Resp, "", "+VGS=" + DecimalString(gain)) }

  /** The unsolicited gain reports a volume change calls for: one per gain
      that differs from what the connection last reported. */
  function GainMessages(micSeen: int, spkSeen: int, mic: int, spk: int): seq<AtMessage>
  {
    (if micSeen != mic then [VgmMessage(mic)] else []) +
    (if spkSeen != spk then [VgsMessage(spk)] else [])
  }

  /** Lines 757-779 on the fields: each gain that changed is taken over and
      reported; a failed report of the microphone gain leaves the speaker
      gain as it was. */
  function GainEffect(f: Fields, werr: Option<Errno>): (Fields, Status)
  {
    var msgs := GainMessages(f.micGain, f.spkGain, f.tMic, f.tSpk);
    (f.(micGain := f.tMic,
        spkGain := if werr.Some? && f.micGain != f.tMic then f.spkGain else f.tSpk,
        outbox := f.outbox + SentOn(werr, msgs)),
     if msgs == [] then Ok else StatusOn(werr))
  }

  /** Nothing is reported when both gains already match; after a
      synchronisation that did not fail both gains are the transport's; and
      only the gains and the output change. */
  lemma GainSyncQuiet(f: Fields, werr: Option<Errno>)
    ensures GainMessages(f.micGain, f.spkGain, f.tMic, f.tSpk) == [] <==>
      f.micGain == f.tMic && f.spkGain == f.tSpk
    ensures |GainMessages(f.micGain, f.spkGain, f.tMic, f.tSpk)| ==
      (if f.micGain != f.tMic then 1 else 0) + (if f.spkGain != f.tSpk then 1 else 0)
    ensures GainEffect(f, werr).1.Ok? ==>
      GainEffect(f, werr).0.micGain == f.tMic && GainEffect(f, werr).0.spkGain == f.tSpk
    ensures GainEffect(f, werr).0 ==
      f.(micGain := GainEffect(f, werr).0.micGain, spkGain := GainEffect(f, werr).0.spkGain,
         outbox := GainEffect(f, werr).0.outbox)
  {
  }
}
