/** The service level connection step that opens every iteration of
    `rfcomm_thread` until the state is CONNECTED: the retry policy, then the
    HF's or the AG's next move in the procedure (sections 4.2 and 4.11.3 of
    the Hands-Free Profile specification). */
module Slc {
  import opened Sys
  import opened CText
  import opened Hfp
  import opened At
  import opened Handlers
  import opened AtReader
  import opened Rfcomm

  /** What a role does in a given state: the state it moves to first, then
      the message it sends and, once that is sent, the codec it selects, the
      handler it expects and whether it announces a sampling and codec
      change. */
  datatype Move = Move(state: State, send: Option<AtMessage>, codec: Option<int>,
                       awaits: Option<Handler>, announce: bool)

  function Stay(s: State): Move { Move(s, None, None, None, false) }

  function Await(s: State, h: Handler): Move { Move(s, None, None, Some(h), false) }

  function SendAwait(s: State, m: AtMessage, h: Handler): Move { Move(s, Some(m), None, Some(h), false) }

  /** From CC_BCS_SET on (and earlier when no codec is negotiated) the state
      becomes CONNECTED and the change of sampling and codec is announced. */
  const ToConnected := Move(Connected, None, None, None, true)

  const CmerValue := "3,0,0,1,0"

  /** The HF switch. */
  function HfMove(s: State, agCodec: bool, msbcEnabled: bool, features: nat): Move
  {
    if s == Disconnected then
      SendAwait(s, AtMessage(CmdSet, "+BRSF", DecimalString(features)), BrsfRespHandler)
    else if s == SlcBrsfSet || s == SlcCindTest || s == SlcCindGet then
      Await(s, RespOkHandler)
    else if s == SlcBrsfSetOk && agCodec then
      SendAwait(s, AtMessage(CmdSet, "+BAC", if msbcEnabled then "1,2" else "1"), RespOkHandler)
    else if s == SlcBrsfSetOk || s == SlcBacSetOk then
      SendAwait(s, AtMessage(CmdTest, "+CIND", ""), CindRespTestHandler)
    else if s == SlcCindTestOk then
      SendAwait(s, AtMessage(CmdGet, "+CIND", ""), CindRespGetHandler)
    else if s == SlcCindGetOk then
      SendAwait(s, AtMessage(CmdSet, "+CMER", CmerValue), RespOkHandler)
    else if (s == SlcCmerSetOk || s == SlcConnected) && agCodec then
      Stay(SlcConnected)
    else if SlcCmerSetOk <= s <= Connected then
      ToConnected
    else
      Stay(s)
  }

  /** The AG switch: nothing to do until AT+CMER is acknowledged, then the
      codec is selected (mSBC when both sides have it) if the HF negotiates
      codecs. */
  function AgMove(s: State, hfCodec: bool, useMsbc: bool): Move
  {
    if s < SlcCmerSetOk then
      Stay(s)
    else if (s == SlcCmerSetOk || s == SlcConnected) && hfCodec then
      Move(SlcConnected, Some(AtMessage(Resp, "+BCS", if useMsbc then "2" else "1")),
           Some(if useMsbc then CodecMsbc else CodecCvsd), Some(BcsSetHandler), false)
    else if s <= Connected then
      ToConnected
    else
      Stay(s)
  }

  /** The move of the transport's role; the HSP profiles have none. */
  function MoveFor(profile: Profile, s: State, features: nat, msbc: bool, env: Env): Move
  {
    match profile
    case HfpHf => HfMove(s, HasFeature(features, AgFeatCodec), env.msbcEnabled, env.hfFeatures)
    case HfpAg => AgMove(s, HasFeature(features, HfFeatCodec), env.msbcEnabled && msbc)
    case _ => Stay(s)
  }

  /** No move lowers the state or leaves the enumeration, and before
      AT+CMER is acknowledged no move changes it: the handlers do. */
  lemma MoveAdvances(profile: Profile, s: State, features: nat, msbc: bool, env: Env)
    requires InEnum(s)
    ensures s <= MoveFor(profile, s, features, msbc, env).state
    ensures InEnum(MoveFor(profile, s, features, msbc, env).state)
    ensures s < SlcCmerSetOk ==> MoveFor(profile, s, features, msbc, env).state == s
  {
  }

  /** The fields of the connection, transport and socket the step touches. */
  datatype SlcView = SlcView(state: State, statePrev: State, retries: nat,
                             handler: Option<Handler>, codec: int,
                             updates: seq<Update>, outbox: seq<AtMessage>)

  ghost function ViewOf(c: Conn): SlcView
    reads c, c.t, c.t.sock
  {
    SlcView(c.state, c.statePrev, c.retries, c.handler, c.t.codec, c.t.updates, c.t.sock.outbox)
  }

  /** A move carried out on a socket whose writes fail with `werr`, if set:
      a failed send ends the move right after its state change. */
  function Perform(v: SlcView, m: Move, werr: Option<Errno>): (SlcView, Status)
  {
    var v1 := v.(state := m.state);
    if m.send.Some? && werr.Some? then (v1, Err(werr.value))
    else
      (v1.(outbox := if m.send.Some? then v.outbox + [m.send.value] else v.outbox,
           codec := if m.codec.Some? then m.codec.value else v.codec,
           handler := if m.awaits.Some? then m.awaits else v.handler,
           updates := if m.announce then v.updates + [UpdateSamplingCodec] else v.updates), Ok)
  }

  /** How the iteration goes on: poll with a timeout (-1 blocks), or leave
      the loop for the I/O error path. */
  datatype StepResult = Poll(timeout: int) | Abort(errno: Errno)

  /** Progress since the last step resets the retry count. */
  function Prepare(v: SlcView): SlcView
  {
    v.(statePrev := v.state, retries := if v.state != v.statePrev then 0 else v.retries)
  }

  /** After the move: a role that awaits an answer polls with the SLC
      timeout and counts one more retry; otherwise `poll` blocks. */
  function Finish(p: (SlcView, Status)): (SlcView, StepResult)
  {
    if p.1.Err? then (p.0, Abort(p.1.errno))
    else if p.0.handler.Some? then (p.0.(retries := p.0.retries + 1), Poll(SlcTimeout))
    else (p.0, Poll(-1))
  }

  /** The step before `poll`: nothing once CONNECTED; otherwise too many
      retries time the connection out, or the role makes its move. */
  function Step(v: SlcView, m: Move, werr: Option<Errno>): (SlcView, StepResult)
  {
    if v.state == Connected then (v, Poll(-1))
    else if Prepare(v).retries > SlcRetries then (Prepare(v), Abort(ETimedOut))
    else Finish(Perform(Prepare(v), m, werr))
  }

  /** Lines 611-735 of the loop: the retry policy, then the move of the
      transport's role. */
  method SlcStep(c: Conn, env: Env) returns (r: StepResult)
    requires c.Valid()
    modifies c`state, c`statePrev, c`retries, c`handler, c.t`codec, c.t`updates, c.t.sock`outbox
    ensures c.Valid() && old(c.state) <= c.state
    ensures (ViewOf(c), r) ==
      Step(old(ViewOf(c)), MoveFor(c.t.profile, old(c.state), c.t.hfpFeatures, c.msbc, env),
           c.t.sock.writeError)
  {
    var m := MoveFor(c.t.profile, c.state, c.t.hfpFeatures, c.msbc, env);
    MoveAdvances(c.t.profile, c.state, c.t.hfpFeatures, c.msbc, env);
    r := StepWith(c, m);
  }

  /** The step, once the role's move for the current state is known. */
  method StepWith(c: Conn, m: Move) returns (r: StepResult)
    requires c.Valid() && c.state <= m.state && InEnum(m.state)
    modifies c`state, c`statePrev, c`retries, c`handler, c.t`codec, c.t`updates, c.t.sock`outbox
    ensures c.Valid() && old(c.state) <= c.state
    ensures (ViewOf(c), r) == Step(old(ViewOf(c)), m, c.t.sock.writeError)
  {
    if c.state == Connected {
      return Poll(-1);
    }
    if c.state != c.statePrev {
      c.statePrev := c.state;
      c.retries := 0;
    }
    if c.retries > SlcRetries {
      return Abort(ETimedOut);
    }
    var st := Carry(c, m);
    ghost var p := (ViewOf(c), st);
    if st.Err? {
      return Abort(st.errno);
    }
    r := Poll(-1);
    if c.handler.Some? {
      r := Poll(SlcTimeout);
      c.retries := c.retries + 1;
    }
    assert (ViewOf(c), r) == Finish(p);
  }

  /** The body of a `case`: the state change, then the write, then (if it
      went out) the codec, the expected handler and the announcement. */
  method Carry(c: Conn, m: Move) returns (st: Status)
    requires c.Valid() && InEnum(m.state)
    modifies c`state, c`handler, c.t`codec, c.t`updates, c.t.sock`outbox
    ensures c.Valid() && c.state == m.state
    ensures (ViewOf(c), st) == Perform(old(ViewOf(c)), m, c.t.sock.writeError)
  {
    c.state := m.state;
    st := Ok;
    if m.send.Some? {
      st := c.t.sock.Write(m.send.value);
      if st.Err? {
        assert c.t.sock.outbox == old(c.t.sock.outbox);
        return;
      }
    }
    if m.codec.Some? {
      c.t.codec := m.codec.value;
    }
    if m.awaits.Some? {
      c.handler := m.awaits;
    }
    if m.announce {
      c.t.updates := c.t.updates + [UpdateSamplingCodec];
    }
  }

  // ---------------------------------------------------------------------
  // The retry policy

  /** Once CONNECTED nothing happens; otherwise `state_prev` catches up with
      the state, progress resets the count, the count ends the connection
      once it passes the ceiling, and only an awaited answer makes `poll`
      time out, at the price of one retry. */
  lemma RetryPolicy(v: SlcView, m: Move, werr: Option<Errno>)
    ensures v.state == Connected ==> Step(v, m, werr) == (v, Poll(-1))
    ensures v.state != Connected ==> Step(v, m, werr).0.statePrev == v.state
    ensures v.state != Connected && v.state == v.statePrev && v.retries > SlcRetries ==>
      Step(v, m, werr) == (v, Abort(ETimedOut))
    ensures v.state != Connected && v.state != v.statePrev ==>
      Step(v, m, werr).0.retries <= 1 &&
      (Step(v, m, werr).1 == Abort(ETimedOut) ==> werr == Some(ETimedOut))
    ensures Step(v, m, werr).1 == Poll(SlcTimeout) ==>
      Step(v, m, werr).0.handler.Some? && Step(v, m, werr).0.retries == Prepare(v).retries + 1
    ensures v.state != Connected && Step(v, m, werr).1 == Poll(-1) ==>
      Step(v, m, werr).0.retries == Prepare(v).retries && Step(v, m, werr).0.handler.None?
    ensures v.retries <= SlcRetries + 1 ==> Step(v, m, werr).0.retries <= SlcRetries + 1
  {
  }

  /** `n` steps with nothing received in between (every `poll` times out),
      stopping at the first abort: the views and what each step decided. */
  function Stalled(v: SlcView, m: Move, werr: Option<Errno>, n: nat): (SlcView, seq<StepResult>)
    decreases n
  {
    if n == 0 then (v, [])
    else
      var s := Step(v, m, werr);
      if s.1.Abort? then (s.0, [s.1])
      else
        var rest := Stalled(s.0, m, werr, n - 1);
        (rest.0, [s.1] + rest.1)
  }

  function Timeouts(n: nat): (r: seq<StepResult>)
    ensures |r| == n
  {
    if n == 0 then [] else [Poll(SlcTimeout)] + Timeouts(n - 1)
  }

  function Copies(m: Option<AtMessage>, n: nat): (r: seq<AtMessage>)
  {
    if n == 0 || m.None? then [] else [m.value] + Copies(m, n - 1)
  }

  /** A request the peer never answers: with `k` retries left it is sent `k`
      more times, each followed by a timed-out `poll`, and the step after that
      ends the connection with ETIMEDOUT. */
  lemma {:induction false} GivesUp(v: SlcView, m: Move, k: nat)
    requires v.state != Connected && v.state == v.statePrev && m.state == v.state
    requires m.awaits.Some? && v.retries + k == SlcRetries + 1
    ensures Stalled(v, m, None, k + 1).1 == Timeouts(k) + [Abort(ETimedOut)]
    ensures Stalled(v, m, None, k + 1).0.outbox == v.outbox + Copies(m.send, k)
    ensures Stalled(v, m, None, k + 1).0.state == v.state
    decreases k
  {
    if k == 0 {
      assert Step(v, m, None) == (v, Abort(ETimedOut));
    } else {
      var s := Step(v, m, None);
      StalledStep(v, m);
      var rest := Stalled(s.0, m, None, k);
      assert Stalled(v, m, None, k + 1) == (rest.0, [s.1] + rest.1);
      GivesUp(s.0, m, k - 1);
      assert [s.1] + rest.1 == Timeouts(k) + [Abort(ETimedOut)];
      CopiesSplit(m.send, k);
    }
  }

  /** One unanswered step below the ceiling: the request goes out again and
      one more retry is counted. */
  lemma StalledStep(v: SlcView, m: Move)
    requires v.state != Connected && v.state == v.statePrev && m.state == v.state
    requires m.awaits.Some? && v.retries <= SlcRetries
    ensures Step(v, m, None).1 == Poll(SlcTimeout)
    ensures var w := Step(v, m, None).0;
      w.state == v.state && w.statePrev == v.state && w.retries == v.retries + 1 &&
      w.outbox == v.outbox + Copies(m.send, 1)
  {
  }

  lemma CopiesSplit(m: Option<AtMessage>, k: nat)
    requires k > 0
    ensures forall o: seq<AtMessage> :: o + Copies(m, 1) + Copies(m, k - 1) == o + Copies(m, k)
  {
  }

  /** From a fresh state, a request the peer never answers goes out
      SLC_RETRIES + 1 times before the connection times out. */
  lemma Attempts(v: SlcView, m: Move)
    requires v.state != Connected && v.state == v.statePrev && v.retries == 0
    requires m.state == v.state && m.awaits.Some? && m.send.Some?
    ensures var r := Stalled(v, m, None, SlcRetries + 2);
      r.1 == Timeouts(SlcRetries + 1) + [Abort(ETimedOut)] &&
      |r.0.outbox| == |v.outbox| + SlcRetries + 1
  {
    GivesUp(v, m, SlcRetries + 1);
    CopiesLength(m.send, SlcRetries + 1);
  }

  lemma {:induction false} CopiesLength(m: Option<AtMessage>, n: nat)
    requires m.Some?
    ensures |Copies(m, n)| == n
  {
    if n > 0 {
      CopiesLength(m, n - 1);
    }
  }

  // ---------------------------------------------------------------------
  // The procedure, role by role

  /** The HF opens with AT+BRSF carrying its features and awaits the AG's
      +BRSF; then it awaits the OK. */
  lemma HfOpening(agCodec: bool, msbcEnabled: bool, features: nat)
    ensures HfMove(Disconnected, agCodec, msbcEnabled, features) ==
      SendAwait(Disconnected, AtMessage(CmdSet, "+BRSF", DecimalString(features)), BrsfRespHandler)
    ensures HfMove(SlcBrsfSet, agCodec, msbcEnabled, features) == Await(SlcBrsfSet, RespOkHandler)
  {
  }

  /** After +BRSF the HF lists its codecs with AT+BAC only when the AG
      negotiates codecs; otherwise it goes straight to AT+CIND=?. */
  lemma HfCodecList(agCodec: bool, msbcEnabled: bool, features: nat)
    ensures var m := HfMove(SlcBrsfSetOk, agCodec, msbcEnabled, features);
      (agCodec ==> m.send == Some(AtMessage(CmdSet, "+BAC", if msbcEnabled then "1,2" else "1")) &&
                   m.awaits == Some(RespOkHandler)) &&
      (!agCodec ==> m.send == Some(AtMessage(CmdTest, "+CIND", "")) &&
                    m.awaits == Some(CindRespTestHandler)) &&
      m.state == SlcBrsfSetOk
    ensures HfMove(SlcBacSetOk, agCodec, msbcEnabled, features).send == Some(AtMessage(CmdTest, "+CIND", ""))
  {
  }

  /** Once AT+CMER is acknowledged, both roles reach SLC_CONNECTED, and go
      on to CONNECTED (announcing it) unless the peer negotiates codecs. */
  lemma CmerAcknowledged(profile: Profile, features: nat, msbc: bool, env: Env)
    requires profile == HfpHf || profile == HfpAg
    ensures var peerCodec := HasFeature(features, if profile == HfpHf then AgFeatCodec else HfFeatCodec);
      var m := MoveFor(profile, SlcCmerSetOk, features, msbc, env);
      (peerCodec ==> m.state == SlcConnected && !m.announce) &&
      (!peerCodec ==> m.state == Connected && m.announce)
  {
  }

  /** The AG selects mSBC when it is built in and the HF listed it, CVSD
      otherwise; the codec it sets is the one it sends, and it awaits the
      HF's AT+BCS. */
  lemma AgCodecChoice(s: State, useMsbc: bool)
    requires s == SlcCmerSetOk || s == SlcConnected
    ensures var m := AgMove(s, true, useMsbc);
      m.send == Some(AtMessage(Resp, "+BCS", if useMsbc then "2" else "1")) &&
      m.codec == Some(if useMsbc then CodecMsbc else CodecCvsd) &&
      m.awaits == Some(BcsSetHandler) && m.state == SlcConnected
  {
  }

  /** The sampling and codec change is announced exactly by the moves that
      reach CONNECTED. */
  lemma ConnectedAnnounced(profile: Profile, s: State, features: nat, msbc: bool, env: Env)
    requires InEnum(s)
    ensures MoveFor(profile, s, features, msbc, env).announce <==>
      (profile == HfpHf || profile == HfpAg) && MoveFor(profile, s, features, msbc, env).state == Connected
  {
  }

  /** The HF's codec connection as written: the +BCS response callback
      moves to CC_BCS_SET and awaits the OK of AT+BCS; the next step sets
      CONNECTED while that handler stays installed; the OK then runs the
      OK callback, whose `state + 1` leaves the enumeration. */
  lemma CodecOkOvershootsAsWritten(v: SlcView, msbcEnabled: bool, features: nat)
    requires v.state == CcBcsSet && v.statePrev == CcBcsSet && v.retries == 0
    requires v.handler == Some(RespBcsOkHandler)
    ensures var m := HfMove(CcBcsSet, true, msbcEnabled, features);
      var s := Step(v, m, None);
      s.0.state == Connected && s.0.handler == Some(RespBcsOkHandler) &&
      s.1 == Poll(SlcTimeout)
    ensures RespOkStateAsWritten(Connected, AtMessage(Resp, "", "OK")) == Connected + 1
    ensures !InEnum(RespOkStateAsWritten(Connected, AtMessage(Resp, "", "OK")))
  {
  }

  /** The same sequence with the bounded OK callback ends in CONNECTED. */
  lemma CodecOkStaysConnected(v: SlcView, msbcEnabled: bool, features: nat)
    requires v.state == CcBcsSet && v.statePrev == CcBcsSet && v.retries == 0
    requires v.handler == Some(RespBcsOkHandler)
    ensures var s := Step(v, HfMove(CcBcsSet, true, msbcEnabled, features), None);
      RespOkState(s.0.state, AtMessage(Resp, "", "OK")) == Connected
  {
  }
}
