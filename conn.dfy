/** One RFCOMM session's state (`struct rfcomm_conn`), the transport and
    device fields it reads and writes, and the message callbacks
    `rfcomm_handler_*_cb`, each a method that updates those records and
    writes its replies to the socket. */
module Rfcomm {
  import opened Sys
  import opened CText
  import opened Hfp
  import opened At
  import opened Handlers
  import opened AtReader

  /** Aspects announced through `bluealsa_dbus_transport_update`. */
  datatype Update = UpdateBattery | UpdateVolume | UpdateSamplingCodec

  /** The transport profile: the HFP branches of the SLC step run only for
      the HF and AG profiles. */
  datatype Profile = HspHs | HspAg | HfpHf | HfpAg

  /** The transport, with the fields of its SCO transport and of its device
      that the engine touches. */
  class Transport {
    const profile: Profile
    const sock: Socket          // bt_fd
    const ext: Socket           // rfcomm.handler_fd, while attached
    const inds: array<int>      // rfcomm.hfp_inds, indexed by Slot
    var extAttached: bool       // rfcomm.handler_fd != -1
    var hfpFeatures: nat        // rfcomm.hfp_features (unsigned)
    var codec: int              // sco type.codec
    var micGain: int            // sco microphone gain
    var spkGain: int            // sco speaker gain
    var battery: int            // device battery_level
    var xapl: Xapl              // device xapl identification
    var accevDocked: int        // device xapl.accev_docked
    var updates: seq<Update>    // notifications emitted, in order
    var pings: nat              // TRANSPORT_PING signals sent to the SCO transport

    ghost predicate Valid()
      reads this
    {
      inds.Length == IndicatorCount && sock != ext
    }

    constructor (profile: Profile, sock: Socket, ext: Socket, extAttached: bool,
                 micGain: int, spkGain: int)
      requires sock != ext
      ensures Valid() && fresh(inds)
      ensures this.profile == profile && this.sock == sock && this.ext == ext
      ensures this.extAttached == extAttached
      ensures this.micGain == micGain && this.spkGain == spkGain
      ensures updates == [] && pings == 0
    {
      this.profile := profile;
      this.sock := sock;
      this.ext := ext;
      inds := new int[IndicatorCount](_ => 0);
      this.extAttached := extAttached;
      hfpFeatures := 0;
      codec := CodecCvsd;
      this.micGain := micGain;
      this.spkGain := spkGain;
      battery := 0;
      xapl := Xapl(0, 0, 0, 0);
      accevDocked := 0;
      updates := [];
      pings := 0;
    }
  }

  class Conn {
    const t: Transport
    var state: State
    var statePrev: State
    var retries: nat
    /** The one-shot expected handler. */
    var handler: Option<Handler>
    var micGain: int
    var spkGain: int
    var msbc: bool
    /** Wire index - 1 to indicator. */
    var indMap: seq<Indicator>

    ghost predicate Valid()
      reads this, t
    {
      t.Valid() && |indMap| == IndMapSize &&
      InEnum(state) && InEnum(statePrev) && retries <= SlcRetries + 1
    }

    /** The initialisation at the start of `rfcomm_thread`. */
    constructor (t: Transport)
      requires t.Valid()
      ensures Valid() && this.t == t
      ensures state == Disconnected && statePrev == Disconnected && retries == 0
      ensures handler == None && !msbc
      ensures micGain == t.micGain && spkGain == t.spkGain
      ensures indMap == seq(IndMapSize, _ => IndNull)
    {
      this.t := t;
      state := Disconnected;
      statePrev := Disconnected;
      retries := 0;
      handler := None;
      micGain := t.micGain;
      spkGain := t.spkGain;
      msbc := false;
      indMap := seq(IndMapSize, _ => IndNull);
    }
  }

  const OkReply := AtMessage(Resp, "", "OK")
  const ErrorReply := AtMessage(Resp, "", "ERROR")
  /** The AG's fixed indicator list and initial values. */
  const CindTestReply := AtMessage(Resp, "+CIND",
    "(\"call\",(0,1)),(\"callsetup\",(0-3)),(\"service\",(0-1)),(\"signal\",(0-5)),(\"roam\",(0-1)),(\"battchg\",(0-5)),(\"callheld\",(0-2))")
  const CindGetReply := AtMessage(Resp, "+CIND", "0,0,0,0,0,0,0")
  const XaplReply := AtMessage(Resp, "", "+XAPL=BlueALSA,0")

  // ---------------------------------------------------------------------
  // The fields the callbacks change, as one value

  /** The mutable fields of a connection, of its transport (the `t`-prefixed
      gains are the SCO transport's) and of its socket's output. */
  datatype Fields = Fields(
    state: State, statePrev: State, retries: nat, handler: Option<Handler>,
    micGain: int, spkGain: int, msbc: bool, indMap: seq<Indicator>,
    features: nat, codec: int, tMic: int, tSpk: int, battery: int, xapl: Xapl,
    docked: int, updates: seq<Update>, pings: nat, inds: seq<int>,
    outbox: seq<AtMessage>)

  ghost function FieldsOf(c: Conn): Fields
    reads c, c.t, c.t.inds, c.t.sock
  {
    Fields(c.state, c.statePrev, c.retries, c.handler, c.micGain, c.spkGain, c.msbc, c.indMap,
           c.t.hfpFeatures, c.t.codec, c.t.micGain, c.t.spkGain, c.t.battery, c.t.xapl,
           c.t.accevDocked, c.t.updates, c.t.pings, c.t.inds[..], c.t.sock.outbox)
  }

  /** The shape `Conn.Valid` guarantees. */
  predicate FieldsValid(f: Fields)
  {
    |f.inds| == IndicatorCount && |f.indMap| == IndMapSize &&
    InEnum(f.state) && InEnum(f.statePrev) && f.retries <= SlcRetries + 1
  }

  /** Replies `msgs` on a socket whose writes fail with `werr`, if set; once
      all of them went out the state is raised to `target`, if any. */
  function Reply(f: Fields, werr: Option<Errno>, msgs: seq<AtMessage>, target: Option<State>)
    : (Fields, Status)
  {
    (f.(outbox := f.outbox + SentOn(werr, msgs),
        state := if werr.None? && target.Some? then Raise(f.state, target.value) else f.state),
     StatusOn(werr))
  }

  /** Features received with +BRSF; a peer that cannot negotiate codecs
      (its `codecBit` clear) forces CVSD. */
  function WithFeatures(f: Fields, features: nat, codecBit: nat): Fields
    requires codecBit > 0
  {
    f.(features := features, codec := if HasFeature(features, codecBit) then f.codec else CodecCvsd)
  }

  /** `n` announcements of `u`. */
  function Repeat(u: Update, n: nat): (r: seq<Update>)
    ensures |r| == n
  {
    if n == 0 then [] else [u] + Repeat(u, n - 1)
  }

  lemma {:induction false} RepeatSnoc(u: Update, n: nat)
    ensures Repeat(u, n + 1) == Repeat(u, n) + [u]
  {
    if n > 0 {
      RepeatSnoc(u, n - 1);
    }
  }

  // ---------------------------------------------------------------------
  // Plain acknowledgements and state-setting callbacks

  /** The OK/ERROR response. The state moves to the next one on OK (never
      past CONNECTED), the call fails with ENOTSUP on ERROR, and any other
      response changes nothing. */
  method HandleRespOk(c: Conn, msg: AtMessage) returns (st: Status)
    requires c.Valid()
    modifies c`state
    ensures c.Valid()
    ensures st == RespOkStatus(msg)
    ensures c.state == RespOkState(old(c.state), msg)
    ensures var f := old(FieldsOf(c)); (FieldsOf(c), st) == (f.(state := RespOkState(f.state, msg)), RespOkStatus(msg))
  {
    if msg.value == "OK" {
      if c.state < Connected {
        c.state := c.state + 1;
      }
      return Ok;
    }
    if msg.value == "ERROR" {
      return Err(ENotSup);
    }
    return Ok;
  }

  function RespOkStatus(msg: AtMessage): Status
  {
    if msg.value == "ERROR" then Err(ENotSup) else Ok
  }

  /** The state after the OK/ERROR callback. */
  function RespOkState(s: State, msg: AtMessage): State
  {
    if msg.value == "OK" && s < Connected then s + 1 else s
  }

  /** The callback as written: `state + 1` on OK, with no upper bound. */
  function RespOkStateAsWritten(s: State, msg: AtMessage): State
  {
    if msg.value == "OK" then s + 1 else s
  }

  /** OK advances exactly one step (within the enumeration), ERROR fails
      and leaves the state, anything else is ignored. */
  lemma RespOkSpec(s: State, msg: AtMessage)
    requires InEnum(s)
    ensures msg.value == "OK" && s < Connected ==> RespOkState(s, msg) == s + 1
    ensures msg.value != "OK" ==> RespOkState(s, msg) == s
    ensures InEnum(RespOkState(s, msg))
    ensures RespOkStatus(msg).Err? <==> msg.value == "ERROR"
  {
  }

  method HandleCindTest(c: Conn) returns (st: Status)
    requires c.Valid()
    modifies c`state, c.t.sock`outbox
    ensures c.Valid() && st == WriteStatus(c.t.sock)
    ensures c.t.sock.outbox == old(c.t.sock.outbox) + Sent(c.t.sock, [CindTestReply, OkReply])
    ensures c.state == if st.Ok? then Raise(old(c.state), SlcCindTestOk) else old(c.state)
    ensures (FieldsOf(c), st) == Reply(old(FieldsOf(c)), c.t.sock.writeError, [CindTestReply, OkReply], Some(SlcCindTestOk))
  {
    st := c.t.sock.Write(CindTestReply);
    if st.Err? { return; }
    st := c.t.sock.Write(OkReply);
    if st.Err? { return; }
    c.state := Raise(c.state, SlcCindTestOk);
  }

  method HandleCindGet(c: Conn) returns (st: Status)
    requires c.Valid()
    modifies c`state, c.t.sock`outbox
    ensures c.Valid() && st == WriteStatus(c.t.sock)
    ensures c.t.sock.outbox == old(c.t.sock.outbox) + Sent(c.t.sock, [CindGetReply, OkReply])
    ensures c.state == if st.Ok? then Raise(old(c.state), SlcCindGetOk) else old(c.state)
    ensures (FieldsOf(c), st) == Reply(old(FieldsOf(c)), c.t.sock.writeError, [CindGetReply, OkReply], Some(SlcCindGetOk))
  {
    st := c.t.sock.Write(CindGetReply);
    if st.Err? { return; }
    st := c.t.sock.Write(OkReply);
    if st.Err? { return; }
    c.state := Raise(c.state, SlcCindGetOk);
  }

  /** The AG's answer to AT+CIND=?: the parser rewrites the index map in
      place, and the map keeps what it wrote even when the parse fails (the
      failure is only reported). */
  method HandleCindRespTest(c: Conn, env: Env, msg: AtMessage) returns (st: Status)
    requires c.Valid() && EnvValid(env)
    modifies c`indMap, c`state
    ensures c.Valid() && st == Ok
    ensures c.indMap == env.parseCind(msg.value, old(c.indMap)).written
    ensures c.state == Raise(old(c.state), SlcCindTest)
    ensures var f := old(FieldsOf(c));
      (FieldsOf(c), st) == (f.(indMap := env.parseCind(msg.value, f.indMap).written, state := Raise(f.state, SlcCindTest)), Ok)
  {
    var p := env.parseCind(msg.value, c.indMap);
    c.indMap := p.written;
    c.state := Raise(c.state, SlcCindTest);
    st := Ok;
  }

  function Min(a: nat, b: nat): nat { if a < b then a else b }

  /** The transport fields the AT+CIND? answer writes: the indicator values,
      the battery level and the announcements made. */
  datatype IndState = IndState(inds: seq<int>, battery: int, updates: seq<Update>)

  /** One received value: it goes to the indicator's slot; a battery value
      also sets the battery level to value * 100 / 5 and is announced. */
  function Store(s: IndState, ind: Indicator, v: int): (r: IndState)
    requires |s.inds| == IndicatorCount
    ensures |r.inds| == IndicatorCount
  {
    if ind == IndBattChg then IndState(s.inds[Slot(ind) := v], CDiv(v * 100, 5), s.updates + [UpdateBattery])
    else s.(inds := s.inds[Slot(ind) := v])
  }

  /** The first `n` values stored at the indicators the map gives for their
      positions. */
  function StoreAll(s: IndState, m: seq<Indicator>, vals: seq<int>, n: nat): (r: IndState)
    requires |s.inds| == IndicatorCount && n <= |m| && n <= |vals|
    ensures |r.inds| == IndicatorCount
  {
    if n == 0 then s else Store(StoreAll(s, m, vals, n - 1), m[n - 1], vals[n - 1])
  }

  /** Number of battery positions among the first `n`. */
  function BatteryFields(m: seq<Indicator>, n: nat): nat
    requires n <= |m|
  {
    if n == 0 then 0 else BatteryFields(m, n - 1) + (if m[n - 1] == IndBattChg then 1 else 0)
  }

  /** One value received: the transport fields become `Store` of the old
      ones. */
  method StoreIndicator(t: Transport, ind: Indicator, v: int)
    requires t.Valid()
    modifies t.inds, t`battery, t`updates
    ensures IndState(t.inds[..], t.battery, t.updates) ==
            Store(IndState(old(t.inds[..]), old(t.battery), old(t.updates)), ind, v)
  {
    t.inds[Slot(ind)] := v;
    if ind == IndBattChg {
      t.battery := CDiv(v * 100, 5);
      t.updates := t.updates + [UpdateBattery];
    }
  }

  /** The AG's answer to AT+CIND? on the fields. */
  function CindValuesEffect(f: Fields, value: string): Fields
    requires |f.inds| == IndicatorCount
  {
    var vals := FieldValues(value);
    var s := StoreAll(IndState(f.inds, f.battery, f.updates), f.indMap, vals, Min(|f.indMap|, |vals|));
    f.(state := Raise(f.state, SlcCindGet), inds := s.inds, battery := s.battery, updates := s.updates)
  }

  /** The AG's answer to AT+CIND?: the i-th comma-separated value goes to the
      indicator the map gives for position i, for as many positions as both
      the values and the map have. */
  method HandleCindRespGet(c: Conn, msg: AtMessage) returns (st: Status)
    requires c.Valid()
    modifies c`state, c.t`battery, c.t`updates, c.t.inds
    ensures c.Valid() && st == Ok
    ensures c.state == Raise(old(c.state), SlcCindGet)
    ensures var vals := FieldValues(msg.value);
      IndState(c.t.inds[..], c.t.battery, c.t.updates) ==
      StoreAll(IndState(old(c.t.inds[..]), old(c.t.battery), old(c.t.updates)),
               c.indMap, vals, Min(|c.indMap|, |vals|))
    ensures (FieldsOf(c), st) == (CindValuesEffect(old(FieldsOf(c)), msg.value), Ok)
  {
    StoreIndicators(c.t, c.indMap, msg.value);
    c.state := Raise(c.state, SlcCindGet);
    st := Ok;
  }

  /** The loop of the AT+CIND? answer: values are stored position by
      position while both positions and values remain. */
  method StoreIndicators(t: Transport, m: seq<Indicator>, value: string)
    requires t.Valid()
    modifies t.inds, t`battery, t`updates
    ensures var vals := FieldValues(value);
      IndState(t.inds[..], t.battery, t.updates) ==
      StoreAll(IndState(old(t.inds[..]), old(t.battery), old(t.updates)), m, vals, Min(|m|, |vals|))
  {
    ghost var vals := FieldValues(value);
    ghost var s0 := IndState(t.inds[..], t.battery, t.updates);
    var rest := value;
    var i := 0;
    while i < |m|
      invariant 0 <= i <= |m| && i < |vals|
      invariant vals[i..] == FieldValues(rest)
      invariant IndState(t.inds[..], t.battery, t.updates) == StoreAll(s0, m, vals, i)
      decreases |m| - i
    {
      StoreIndicator(t, m[i], Atoi(rest));
      var k := Find(rest, ',');
      FieldValuesStep(rest);
      if k.None? {
        assert |vals| == i + 1;
        i := i + 1;
        break;
      }
      assert vals[i + 1..] == vals[i..][1..];
      rest := rest[k.value + 1..];
      i := i + 1;
    }
    assert i == Min(|m|, |vals|);
  }

  /** A value stored at position `j` and not overwritten later is the one
      the indicator holds. */
  lemma {:induction false} StoreAllLast(s: IndState, m: seq<Indicator>, vals: seq<int>, n: nat, j: nat)
    requires |s.inds| == IndicatorCount && n <= |m| && n <= |vals| && j < n
    requires forall l :: j < l < n ==> Slot(m[l]) != Slot(m[j])
    ensures StoreAll(s, m, vals, n).inds[Slot(m[j])] == vals[j]
  {
    if j < n - 1 {
      StoreAllLast(s, m, vals, n - 1, j);
    }
  }

  /** An indicator no processed position maps to keeps its value. */
  lemma {:induction false} StoreAllUntouched(s: IndState, m: seq<Indicator>, vals: seq<int>, n: nat, k: nat)
    requires |s.inds| == IndicatorCount && n <= |m| && n <= |vals| && k < IndicatorCount
    requires forall l :: 0 <= l < n ==> Slot(m[l]) != k
    ensures StoreAll(s, m, vals, n).inds[k] == s.inds[k]
  {
    if n > 0 {
      StoreAllUntouched(s, m, vals, n - 1, k);
    }
  }

  /** Every battery position is announced once, and nothing else is. */
  lemma {:induction false} StoreAllAnnounces(s: IndState, m: seq<Indicator>, vals: seq<int>, n: nat)
    requires |s.inds| == IndicatorCount && n <= |m| && n <= |vals|
    ensures StoreAll(s, m, vals, n).updates == s.updates + Repeat(UpdateBattery, BatteryFields(m, n))
  {
    if n > 0 {
      StoreAllAnnounces(s, m, vals, n - 1);
      if m[n - 1] == IndBattChg {
        RepeatSnoc(UpdateBattery, BatteryFields(m, n - 1));
      }
    }
  }

  /** Position `j` is the last battery position among the first `n`. */
  predicate LastBattery(m: seq<Indicator>, n: nat, j: int)
  {
    0 <= j < n <= |m| && m[j] == IndBattChg && forall l :: j < l < n ==> m[l] != IndBattChg
  }

  /** The battery level is the one the last battery position gives; with no
      battery position it is kept. */
  lemma {:induction false} StoreAllBattery(s: IndState, m: seq<Indicator>, vals: seq<int>, n: nat)
    requires |s.inds| == IndicatorCount && n <= |m| && n <= |vals|
    ensures BatteryFields(m, n) == 0 ==> StoreAll(s, m, vals, n).battery == s.battery
    ensures forall j :: LastBattery(m, n, j) ==> StoreAll(s, m, vals, n).battery == CDiv(vals[j] * 100, 5)
  {
    if n > 0 {
      StoreAllBattery(s, m, vals, n - 1);
    }
  }

  /** With the map (call, battchg, ...) the answer "0,3" sets the call
      indicator to 0, the battery indicator to 3 and the battery level to 60,
      announced once. */
  lemma CindGetExample(s: IndState, m: seq<Indicator>)
    requires |s.inds| == IndicatorCount && |m| == IndMapSize
    requires m[0] == IndCall && m[1] == IndBattChg
    ensures var vals := FieldValues("0,3");
      var n := Min(|m|, |vals|);
      && n == 2
      && StoreAll(s, m, vals, n).inds[Slot(IndCall)] == 0
      && StoreAll(s, m, vals, n).inds[Slot(IndBattChg)] == 3
      && StoreAll(s, m, vals, n).battery == 60
      && StoreAll(s, m, vals, n).updates == s.updates + [UpdateBattery]
  {
    assert Joined([0, 3]) == "0,3";
    FieldValuesJoined([0, 3]);
    var vals := FieldValues("0,3");
    StoreAllLast(s, m, vals, 2, 0);
    StoreAllLast(s, m, vals, 2, 1);
    StoreAllAnnounces(s, m, vals, 2);
    assert BatteryFields(m, 1) == 0 && BatteryFields(m, 2) == 1;
    assert Repeat(UpdateBattery, 1) == [UpdateBattery];
  }

  method HandleCmerSet(c: Conn) returns (st: Status)
    requires c.Valid()
    modifies c`state, c.t.sock`outbox
    ensures c.Valid() && st == WriteStatus(c.t.sock)
    ensures c.t.sock.outbox == old(c.t.sock.outbox) + Sent(c.t.sock, [OkReply])
    ensures c.state == if st.Ok? then Raise(old(c.state), SlcCmerSetOk) else old(c.state)
    ensures (FieldsOf(c), st) == Reply(old(FieldsOf(c)), c.t.sock.writeError, [OkReply], Some(SlcCmerSetOk))
  {
    st := c.t.sock.Write(OkReply);
    if st.Err? { return; }
    c.state := Raise(c.state, SlcCmerSetOk);
  }

  /** Map position the +CIEV callback reads for a 1-based index, as written:
      `index - 1` in unsigned arithmetic, with no range check. */
  function CievPositionAsWritten(index: nat): nat
  {
    U32(index - 1)
  }

  /** As written, index 0 and any index above the map size make the callback
      read outside the index map. */
  lemma CievOutOfRangeAsWritten()
    ensures CievPositionAsWritten(0) == 0xFFFF_FFFF && CievPositionAsWritten(0) >= IndMapSize
    ensures CievPositionAsWritten(IndMapSize + 1) == IndMapSize
  {
  }

  /** The map position of a 1-based +CIEV index, when it is one. */
  function CievPosition(index: nat): (r: Option<nat>)
    ensures r.Some? <==> 1 <= index <= IndMapSize
    ensures r.Some? ==> r.value < IndMapSize && r.value == CievPositionAsWritten(index)
  {
    if 1 <= index <= IndMapSize then Some(index - 1) else None
  }

  /** The +CIEV callback on the fields. */
  function CievEffect(f: Fields, value: string): Fields
    requires |f.inds| == IndicatorCount && |f.indMap| == IndMapSize
  {
    var p := ScanPair(value);
    if p.Some? && CievPosition(p.value.0).Some? then
      var ind := f.indMap[CievPosition(p.value.0).value];
      var v := p.value.1;
      f.(inds := f.inds[Slot(ind) := v],
         pings := f.pings + (if ind == IndCall || ind == IndCallSetup then 1 else 0),
         battery := if ind == IndBattChg then U32(v * 100) / 5 else f.battery,
         updates := f.updates + (if ind == IndBattChg then [UpdateBattery] else []))
    else f
  }

  /** `%u` takes a negative value and wraps it, and the battery level is
      then computed modulo 2^32: "+CIEV: 1,-1" on a battery indicator stores
      4294967295 and sets the level to 858993439. */
  lemma CievNegativeBattery(f: Fields)
    requires |f.inds| == IndicatorCount && |f.indMap| == IndMapSize && f.indMap[0] == IndBattChg
    ensures CievEffect(f, "1,-1").inds[Slot(IndBattChg)] == 0xFFFF_FFFF
    ensures CievEffect(f, "1,-1").battery == 858993439
  {
    ScanPairNegative();
  }

  /** The +CIEV unsolicited result "index,value": the indicator the map gives
      for the index takes the value; a call or call-setup change pings the
      SCO transport, a battery change sets the level to value * 100 / 5,
      computed in 32-bit unsigned arithmetic, and is announced. A value that does not scan, or an index outside the map,
      changes nothing. */
  method HandleCievResp(c: Conn, msg: AtMessage) returns (st: Status)
    requires c.Valid()
    modifies c.t.inds, c.t`battery, c.t`updates, c.t`pings
    ensures c.Valid() && st == Ok
    ensures var p := ScanPair(msg.value);
      if p.Some? && CievPosition(p.value.0).Some? then
        var ind := c.indMap[CievPosition(p.value.0).value];
        var v := p.value.1;
        && c.t.inds[..] == old(c.t.inds[..])[Slot(ind) := v]
        && c.t.pings == old(c.t.pings) + (if ind == IndCall || ind == IndCallSetup then 1 else 0)
        && c.t.battery == (if ind == IndBattChg then U32(v * 100) / 5 else old(c.t.battery))
        && c.t.updates == old(c.t.updates) + (if ind == IndBattChg then [UpdateBattery] else [])
      else
        && c.t.inds[..] == old(c.t.inds[..]) && c.t.pings == old(c.t.pings)
        && c.t.battery == old(c.t.battery) && c.t.updates == old(c.t.updates)
    ensures (FieldsOf(c), st) == (CievEffect(old(FieldsOf(c)), msg.value), Ok)
  {
    var t := c.t;
    var p := ScanPair(msg.value);
    if p.Some? {
      var (index, value) := p.value;
      var pos := CievPosition(index);
      if pos.Some? {
        var ind := c.indMap[pos.value];
        t.inds[Slot(ind)] := value;
        if ind == IndCall || ind == IndCallSetup {
          t.pings := t.pings + 1;
        } else if ind == IndBattChg {
          t.battery := U32(value * 100) / 5;
          t.updates := t.updates + [UpdateBattery];
        }
      }
    }
    st := Ok;
  }

  method HandleBiaSet(c: Conn) returns (st: Status)
    requires c.Valid()
    modifies c.t.sock`outbox
    ensures c.Valid() && st == WriteStatus(c.t.sock)
    ensures c.t.sock.outbox == old(c.t.sock.outbox) + Sent(c.t.sock, [OkReply])
    ensures (FieldsOf(c), st) == Reply(old(FieldsOf(c)), c.t.sock.writeError, [OkReply], None)
  {
    st := c.t.sock.Write(OkReply);
  }

  /** AT+BRSF from the HF: its features are stored (CVSD is forced when it
      cannot negotiate codecs) and the AG's own features are returned. */
  method HandleBrsfSet(c: Conn, env: Env, msg: AtMessage) returns (st: Status)
    requires c.Valid()
    modifies c.t`hfpFeatures, c.t`codec, c.t.sock`outbox, c`state
    ensures c.Valid() && st == WriteStatus(c.t.sock)
    ensures c.t.hfpFeatures == U32(Atoi(msg.value))
    ensures c.t.codec == if HasFeature(c.t.hfpFeatures, HfFeatCodec) then old(c.t.codec) else CodecCvsd
    ensures c.t.sock.outbox == old(c.t.sock.outbox) +
      Sent(c.t.sock, [AtMessage(Resp, "+BRSF", DecimalString(env.agFeatures)), OkReply])
    ensures c.state == if st.Ok? then Raise(old(c.state), SlcBrsfSetOk) else old(c.state)
    ensures (FieldsOf(c), st) ==
      Reply(WithFeatures(old(FieldsOf(c)), U32(Atoi(msg.value)), HfFeatCodec), c.t.sock.writeError,
            [AtMessage(Resp, "+BRSF", DecimalString(env.agFeatures)), OkReply], Some(SlcBrsfSetOk))
  {
    var t := c.t;
    t.hfpFeatures := U32(Atoi(msg.value));
    if !HasFeature(t.hfpFeatures, HfFeatCodec) {
      t.codec := CodecCvsd;
    }
    st := t.sock.Write(AtMessage(Resp, "+BRSF", DecimalString(env.agFeatures)));
    if st.Err? { return; }
    st := t.sock.Write(OkReply);
    if st.Err? { return; }
    c.state := Raise(c.state, SlcBrsfSetOk);
  }

  /** The AG's +BRSF answer: its features are stored (CVSD is forced when it
      cannot negotiate codecs). */
  method HandleBrsfResp(c: Conn, msg: AtMessage) returns (st: Status)
    requires c.Valid()
    modifies c.t`hfpFeatures, c.t`codec, c`state
    ensures c.Valid() && st == Ok
    ensures c.t.hfpFeatures == U32(Atoi(msg.value))
    ensures c.t.codec == if HasFeature(c.t.hfpFeatures, AgFeatCodec) then old(c.t.codec) else CodecCvsd
    ensures c.state == Raise(old(c.state), SlcBrsfSet)
    ensures var f := old(FieldsOf(c));
      (FieldsOf(c), st) == (WithFeatures(f, U32(Atoi(msg.value)), AgFeatCodec).(state := Raise(f.state, SlcBrsfSet)), Ok)
  {
    var t := c.t;
    t.hfpFeatures := U32(Atoi(msg.value));
    if !HasFeature(t.hfpFeatures, AgFeatCodec) {
      t.codec := CodecCvsd;
    }
    c.state := Raise(c.state, SlcBrsfSet);
    st := Ok;
  }

  /** AT+VGM: the microphone gain is taken over by both the connection and
      the SCO transport, acknowledged, and announced. */
  method HandleVgmSet(c: Conn, msg: AtMessage) returns (st: Status)
    requires c.Valid()
    modifies c`micGain, c.t`micGain, c.t.sock`outbox, c.t`updates
    ensures c.Valid() && st == WriteStatus(c.t.sock)
    ensures c.micGain == Atoi(msg.value) && c.t.micGain == Atoi(msg.value)
    ensures c.t.sock.outbox == old(c.t.sock.outbox) + Sent(c.t.sock, [OkReply])
    ensures c.t.updates == old(c.t.updates) + (if st.Ok? then [UpdateVolume] else [])
    ensures var f := old(FieldsOf(c)); var n := Atoi(msg.value);
      (FieldsOf(c), st) ==
      Reply(f.(micGain := n, tMic := n, updates := f.updates + (if c.t.sock.writeError.None? then [UpdateVolume] else [])),
            c.t.sock.writeError, [OkReply], None)
  {
    c.micGain := Atoi(msg.value);
    c.t.micGain := c.micGain;
    st := c.t.sock.Write(OkReply);
    if st.Err? { return; }
    c.t.updates := c.t.updates + [UpdateVolume];
  }

  /** AT+VGS: the same for the speaker gain. */
  method HandleVgsSet(c: Conn, msg: AtMessage) returns (st: Status)
    requires c.Valid()
    modifies c`spkGain, c.t`spkGain, c.t.sock`outbox, c.t`updates
    ensures c.Valid() && st == WriteStatus(c.t.sock)
    ensures c.spkGain == Atoi(msg.value) && c.t.spkGain == Atoi(msg.value)
    ensures c.t.sock.outbox == old(c.t.sock.outbox) + Sent(c.t.sock, [OkReply])
    ensures c.t.updates == old(c.t.updates) + (if st.Ok? then [UpdateVolume] else [])
    ensures var f := old(FieldsOf(c)); var n := Atoi(msg.value);
      (FieldsOf(c), st) ==
      Reply(f.(spkGain := n, tSpk := n, updates := f.updates + (if c.t.sock.writeError.None? then [UpdateVolume] else [])),
            c.t.sock.writeError, [OkReply], None)
  {
    c.spkGain := Atoi(msg.value);
    c.t.spkGain := c.spkGain;
    st := c.t.sock.Write(OkReply);
    if st.Err? { return; }
    c.t.updates := c.t.updates + [UpdateVolume];
  }

  method HandleBtrhGet(c: Conn) returns (st: Status)
    requires c.Valid()
    modifies c.t.sock`outbox
    ensures c.Valid() && st == WriteStatus(c.t.sock)
    ensures c.t.sock.outbox == old(c.t.sock.outbox) + Sent(c.t.sock, [OkReply])
    ensures (FieldsOf(c), st) == Reply(old(FieldsOf(c)), c.t.sock.writeError, [OkReply], None)
  {
    st := c.t.sock.Write(OkReply);
  }

  /** AT+BCS from the HF, confirming the codec the AG selected: a different
      codec is refused with ERROR and the state stays; the selected one is
      acknowledged and codec connection setup moves on. */
  method HandleBcsSet(c: Conn, msg: AtMessage) returns (st: Status)
    requires c.Valid()
    modifies c.t.sock`outbox, c`state
    ensures c.Valid() && st == WriteStatus(c.t.sock)
    ensures c.t.codec != Atoi(msg.value) ==>
      c.t.sock.outbox == old(c.t.sock.outbox) + Sent(c.t.sock, [ErrorReply]) &&
      c.state == old(c.state)
    ensures c.t.codec == Atoi(msg.value) ==>
      c.t.sock.outbox == old(c.t.sock.outbox) + Sent(c.t.sock, [OkReply]) &&
      c.state == if st.Ok? then Raise(old(c.state), CcBcsSetOk) else old(c.state)
    ensures var f := old(FieldsOf(c));
      (FieldsOf(c), st) ==
      if f.codec != Atoi(msg.value) then Reply(f, c.t.sock.writeError, [ErrorReply], None)
      else Reply(f, c.t.sock.writeError, [OkReply], Some(CcBcsSetOk))
  {
    if c.t.codec != Atoi(msg.value) {
      st := c.t.sock.Write(ErrorReply);
      return;
    }
    st := c.t.sock.Write(OkReply);
    if st.Err? { return; }
    c.state := Raise(c.state, CcBcsSetOk);
  }

  /** The OK (or ERROR) for the HF's AT+BCS: the OK/ERROR callback, then the
      sampling and codec change is announced. */
  method HandleRespBcsOk(c: Conn, msg: AtMessage) returns (st: Status)
    requires c.Valid()
    modifies c`state, c.t`updates
    ensures c.Valid() && st == RespOkStatus(msg)
    ensures c.state == RespOkState(old(c.state), msg)
    ensures c.t.updates == old(c.t.updates) + (if st.Ok? then [UpdateSamplingCodec] else [])
    ensures var f := old(FieldsOf(c));
      (FieldsOf(c), st) ==
      (f.(state := RespOkState(f.state, msg),
          updates := f.updates + (if RespOkStatus(msg).Ok? then [UpdateSamplingCodec] else [])), RespOkStatus(msg))
  {
    st := HandleRespOk(c, msg);
    if st.Err? { return; }
    c.t.updates := c.t.updates + [UpdateSamplingCodec];
  }

  /** The AG's +BCS codec selection: the HF adopts the codec, confirms it
      with AT+BCS and expects the OK. */
  method HandleBcsResp(c: Conn, msg: AtMessage) returns (st: Status)
    requires c.Valid()
    modifies c.t`codec, c.t.sock`outbox, c`handler, c`state
    ensures c.Valid() && st == WriteStatus(c.t.sock)
    ensures c.t.codec == Atoi(msg.value)
    ensures c.t.sock.outbox == old(c.t.sock.outbox) + Sent(c.t.sock, [AtMessage(CmdSet, "+BCS", msg.value)])
    ensures c.handler == if st.Ok? then Some(RespBcsOkHandler) else old(c.handler)
    ensures c.state == if st.Ok? then Raise(old(c.state), CcBcsSet) else old(c.state)
    ensures var f := old(FieldsOf(c));
      (FieldsOf(c), st) ==
      Reply(f.(codec := Atoi(msg.value), handler := if c.t.sock.writeError.None? then Some(RespBcsOkHandler) else f.handler),
            c.t.sock.writeError, [AtMessage(CmdSet, "+BCS", msg.value)], Some(CcBcsSet))
  {
    c.t.codec := Atoi(msg.value);
    st := c.t.sock.Write(AtMessage(CmdSet, "+BCS", msg.value));
    if st.Err? { return; }
    c.handler := Some(RespBcsOkHandler);
    c.state := Raise(c.state, CcBcsSet);
  }

  /** The `strchr` walk over an AT+BAC codec list: whether any listed codec
      is mSBC. */
  method ListsMsbc(value: string) returns (found: bool)
    ensures found <==> CodecMsbc in FieldValues(value)
  {
    var rest := value;
    found := false;
    while true
      invariant (CodecMsbc in FieldValues(value)) == (found || CodecMsbc in FieldValues(rest))
      decreases |rest|
    {
      if Atoi(rest) == CodecMsbc {
        found := true;
      }
      var k := Find(rest, ',');
      FieldValuesHas(rest, CodecMsbc);
      if k.None? {
        return;
      }
      rest := rest[k.value + 1..];
    }
  }

  /** AT+BAC from the HF: mSBC becomes available (when built in) if any of
      the listed codecs is mSBC; the list is acknowledged. */
  method HandleBacSet(c: Conn, env: Env, msg: AtMessage) returns (st: Status)
    requires c.Valid()
    modifies c`msbc, c.t.sock`outbox, c`state
    ensures c.Valid() && st == WriteStatus(c.t.sock)
    ensures c.msbc == (old(c.msbc) || (env.msbcEnabled && CodecMsbc in FieldValues(msg.value)))
    ensures c.t.sock.outbox == old(c.t.sock.outbox) + Sent(c.t.sock, [OkReply])
    ensures c.state == if st.Ok? then Raise(old(c.state), SlcBacSetOk) else old(c.state)
    ensures var f := old(FieldsOf(c));
      (FieldsOf(c), st) ==
      Reply(f.(msbc := f.msbc || (env.msbcEnabled && CodecMsbc in FieldValues(msg.value))),
            c.t.sock.writeError, [OkReply], Some(SlcBacSetOk))
  {
    var found := ListsMsbc(msg.value);
    if env.msbcEnabled && found {
      c.msbc := true;
    }
    st := c.t.sock.Write(OkReply);
    if st.Err? { return; }
    c.state := Raise(c.state, SlcBacSetOk);
  }

  // ---------------------------------------------------------------------
  // Apple extensions

  /** What an AT+IPHONEACCEV report can change: the battery level, the dock
      state, and how many battery updates it announced. */
  datatype Accev = Accev(battery: int, docked: int, reports: nat)

  /** The key character of a token: its first character, NUL when empty. */
  function Lead(tok: string): (ch: char)
    ensures tok != [] ==> ch == tok[0]
    ensures tok == [] ==> ch == Nul
  {
    if tok == [] then Nul else tok[0]
  }

  /** The tokens successive `strsep(&ptr, ",")` calls return until `ptr`
      becomes NULL. */
  function Tokens(ptr: Option<string>): (r: seq<string>)
    ensures ptr.Some? ==> r != [] && r[0] == StrSep(ptr.value).0
    decreases if ptr.None? then 0 else |ptr.value| + 1
  {
    if ptr.None? then []
    else [StrSep(ptr.value).0] + Tokens(StrSep(ptr.value).1)
  }

  /** The tokens after the first are those of the rest of the string. */
  lemma TokensTail(p: string)
    ensures |Tokens(Some(p))| == |Tokens(StrSep(p).1)| + 1
    ensures Tokens(Some(p))[1..] == Tokens(StrSep(p).1)
  {
  }

  /** The number of key/value pairs announced by the first field, as the
      `size_t` it is stored in (a negative count wraps to a huge one). */
  function AccevCount(value: string): nat
  {
    U64(Atoi(Tokens(Some(value))[0]))
  }

  /** One key/value pair: key 1 sets the battery to value*100/9 (truncated)
      and announces it, key 2 sets the dock state, any other key is
      skipped. */
  function AccevPair(key: char, v: string, a: Accev): (b: Accev)
    ensures key == '1' ==> b == a.(battery := CDiv(Atoi(v) * 100, 9), reports := a.reports + 1)
    ensures key == '2' ==> b == a.(docked := Atoi(v))
    ensures key != '1' && key != '2' ==> b == a
  {
    match key
    case '1' => a.(battery := CDiv(Atoi(v) * 100, 9), reports := a.reports + 1)
    case '2' => a.(docked := Atoi(v))
    case _ => a
  }

  /** The report walk over the tokens after the count: at most `count`
      key/value pairs, in order; a key without a value ends the walk. */
  function AccevRun(count: nat, toks: seq<string>, a: Accev): Accev
    decreases count
  {
    if count == 0 || |toks| < 2 then a
    else AccevRun(count - 1, toks[2..], AccevPair(Lead(toks[0]), toks[1], a))
  }

  /** One pass of the IPHONEACCEV loop body, the `switch` on the key of the
      pair at `p`: the pair at the head of the tokens is applied and the
      walk goes on past it; a key without a value leaves no text. */
  method ApplyAccevPair(t: Transport, p: string, ghost a: Accev)
      returns (ptr: Option<string>, ghost b: Accev)
    requires a.battery == t.battery && a.docked == t.accevDocked
    modifies t`battery, t`accevDocked, t`updates
    ensures b.battery == t.battery && b.docked == t.accevDocked
    ensures var toks := Tokens(Some(p));
      if |toks| < 2 then ptr.None? && b == a
      else Tokens(ptr) == toks[2..] && b == AccevPair(Lead(toks[0]), toks[1], a)
    ensures t.updates == old(t.updates) + (if b.reports == a.reports then [] else [UpdateBattery])
    ensures b.reports == a.reports || b.reports == a.reports + 1
  {
    b := a;
    var tok := StrSep(p).0;
    ptr := StrSep(p).1;
    var key := Lead(tok);
    ghost var toks := Tokens(Some(p));
    TokensTail(p);
    if ptr.Some? {
      TokensTail(ptr.value);
      assert toks[2..] == toks[1..][1..];
    }
    if key == '1' {
      if ptr.Some? {
        var v := StrSep(ptr.value).0;
        ptr := StrSep(ptr.value).1;
        t.battery := CDiv(Atoi(v) * 100, 9);
        t.updates := t.updates + [UpdateBattery];
        b := b.(battery := t.battery, reports := b.reports + 1);
      }
    } else if key == '2' {
      if ptr.Some? {
        var v := StrSep(ptr.value).0;
        ptr := StrSep(ptr.value).1;
        t.accevDocked := Atoi(v);
        b := b.(docked := t.accevDocked);
      }
    } else if ptr.Some? {
      ptr := StrSep(ptr.value).1;
    }
  }

  /** The reports of an AT+IPHONEACCEV value applied to the fields. */
  function AccevEffect(f: Fields, value: string): Fields
  {
    var a := AccevRun(AccevCount(value), Tokens(Some(value))[1..], Accev(f.battery, f.docked, 0));
    f.(battery := a.battery, docked := a.docked, updates := f.updates + Repeat(UpdateBattery, a.reports))
  }

  /** One turn of the IPHONEACCEV loop, in terms of the walk it follows. */
  method AccevLoopStep(t: Transport, p: string, count: nat, ghost a: Accev, ghost base: seq<Update>)
      returns (ptr: Option<string>, ghost b: Accev)
    requires a.battery == t.battery && a.docked == t.accevDocked
    requires t.updates == base + Repeat(UpdateBattery, a.reports)
    modifies t`battery, t`accevDocked, t`updates
    ensures b.battery == t.battery && b.docked == t.accevDocked
    ensures AccevRun(count + 1, Tokens(Some(p)), a) == AccevRun(count, Tokens(ptr), b)
    ensures t.updates == base + Repeat(UpdateBattery, b.reports)
  {
    ghost var toks := Tokens(Some(p));
    ptr, b := ApplyAccevPair(t, p, a);
    AccevRunStep(count, toks, a);
    if b.reports != a.reports {
      RepeatSnoc(UpdateBattery, a.reports);
    }
  }

  /** Lines 450-469: the accessory's battery and dock reports are applied in
      order, each battery report announced. */
  method ApplyAccev(t: Transport, value: string)
    modifies t`battery, t`accevDocked, t`updates
    ensures var r := AccevRun(AccevCount(value), Tokens(Some(value))[1..],
                              Accev(old(t.battery), old(t.accevDocked), 0));
      t.battery == r.battery && t.accevDocked == r.docked &&
      t.updates == old(t.updates) + Repeat(UpdateBattery, r.reports)
  {
    var ptr := StrSep(value).1;
    var count := U64(Atoi(StrSep(value).0));
    TokensTail(value);
    assert count == AccevCount(value) && Tokens(ptr) == Tokens(Some(value))[1..];
    ghost var acc := Accev(t.battery, t.accevDocked, 0);
    ghost var r := AccevRun(count, Tokens(ptr), acc);
    ghost var base := t.updates;
    while count != 0 && ptr.Some?
      invariant acc.battery == t.battery && acc.docked == t.accevDocked
      invariant AccevRun(count, Tokens(ptr), acc) == r
      invariant t.updates == base + Repeat(UpdateBattery, acc.reports)
      decreases count
    {
      count := count - 1;
      ptr, acc := AccevLoopStep(t, ptr.value, count, acc, base);
    }
    assert AccevRun(count, Tokens(ptr), acc) == acc;
  }

  /** AT+IPHONEACCEV: the accessory's reports are applied, then
      acknowledged. */
  method HandleIphoneAccevSet(c: Conn, msg: AtMessage) returns (st: Status)
    requires c.Valid()
    modifies c.t`battery, c.t`accevDocked, c.t`updates, c.t.sock`outbox
    ensures c.Valid() && st == WriteStatus(c.t.sock)
    ensures var r := AccevRun(AccevCount(msg.value), Tokens(Some(msg.value))[1..],
                              Accev(old(c.t.battery), old(c.t.accevDocked), 0));
      c.t.battery == r.battery && c.t.accevDocked == r.docked &&
      c.t.updates == old(c.t.updates) + Repeat(UpdateBattery, r.reports)
    ensures c.t.sock.outbox == old(c.t.sock.outbox) + Sent(c.t.sock, [OkReply])
    ensures (FieldsOf(c), st) == Reply(AccevEffect(old(FieldsOf(c)), msg.value), c.t.sock.writeError, [OkReply], None)
  {
    ghost var f := FieldsOf(c);
    ApplyAccev(c.t, msg.value);
    assert FieldsOf(c) == AccevEffect(f, msg.value);
    st := c.t.sock.Write(OkReply);
  }

  /** One step of `AccevRun`: a pair is consumed, or the run ends for want
      of one. */
  lemma AccevRunStep(count: nat, toks: seq<string>, a: Accev)
    ensures AccevRun(count + 1, toks, a) ==
      if |toks| < 2 then a else AccevRun(count, toks[2..], AccevPair(Lead(toks[0]), toks[1], a))
    ensures AccevRun(count, [], a) == a
  {
  }

  /** `1,1,9` announces one pair: key 1 (battery) with level 9. */
  lemma AccevFullBatteryTokens()
    ensures AccevCount("1,1,9") == 1
    ensures Tokens(Some("1,1,9"))[1..] == ["1", "9"]
  {
    SplitAfterKey("1,1,9");
    SplitAfterKey("1,9");
    assert Find("9", ',') == None;
    assert Tokens(Some("9")) == ["9"];
    assert "1,9"[..1] == "1" && "1,9"[2..] == "9";
    assert Tokens(Some("1,9")) == ["1", "9"];
    AtoiDigit("1");
  }

  /** A one-pair report of a full battery: level 9 reads as 100 percent and
      is announced once. */
  lemma AccevFullBattery()
    ensures AccevRun(1, ["1", "9"], Accev(50, 1, 0)) == Accev(100, 1, 1)
  {
    AtoiDigit("9");
  }

  /** A dock report of 0 sets the dock state and leaves the battery; a key
      whose value is missing changes nothing. */
  lemma AccevUndocked()
    ensures AccevRun(1, ["2", "0"], Accev(50, 1, 0)) == Accev(50, 0, 0)
    ensures AccevRun(1, ["1"], Accev(50, 1, 0)) == Accev(50, 1, 0)
  {
    AtoiDigit("0");
  }

  /** A one-character token followed by a comma. */
  lemma SplitAfterKey(p: string)
    requires |p| >= 2 && p[0] != ',' && p[1] == ','
    ensures StrSep(p) == (p[..1], Some(p[2..]))
  {
    assert Find(p[1..], ',') == Some(0);
  }

  /** The battery level changes only together with an announcement, and no
      more pairs are applied than the count allows. */
  lemma {:induction false} AccevBatteryAnnounced(count: nat, toks: seq<string>, a: Accev)
    ensures a.reports <= AccevRun(count, toks, a).reports <= a.reports + count
    ensures AccevRun(count, toks, a).reports == a.reports ==>
      AccevRun(count, toks, a).battery == a.battery
    decreases count
  {
    if count > 0 && |toks| >= 2 {
      AccevBatteryAnnounced(count - 1, toks[2..], AccevPair(Lead(toks[0]), toks[1], a));
    }
  }

  /** A level from 0 to 9 maps onto 0..100 percent, 9 being full. */
  lemma AccevBatteryScale(level: int)
    requires 0 <= level <= 9
    ensures 0 <= CDiv(level * 100, 9) <= 100
    ensures level == 9 <==> CDiv(level * 100, 9) == 100
  {
  }

  /** AT+XAPL: a well-formed `vendor-product-version,features` value is
      stored and answered with the fixed identification; anything else is
      answered with ERROR and stores nothing. */
  method HandleXaplSet(c: Conn, env: Env, msg: AtMessage) returns (st: Status)
    requires c.Valid()
    modifies c.t`xapl, c.t.sock`outbox
    ensures c.Valid() && st == WriteStatus(c.t.sock)
    ensures env.scanXapl(msg.value).Some? ==>
      c.t.xapl == env.scanXapl(msg.value).value &&
      c.t.sock.outbox == old(c.t.sock.outbox) + Sent(c.t.sock, [XaplReply])
    ensures env.scanXapl(msg.value).None? ==>
      c.t.xapl == old(c.t.xapl) &&
      c.t.sock.outbox == old(c.t.sock.outbox) + Sent(c.t.sock, [ErrorReply])
    ensures var f := old(FieldsOf(c)); var x := env.scanXapl(msg.value);
      (FieldsOf(c), st) ==
      if x.Some? then Reply(f.(xapl := x.value), c.t.sock.writeError, [XaplReply], None)
      else Reply(f, c.t.sock.writeError, [ErrorReply], None)
  {
    var reply := XaplReply;
    var x := env.scanXapl(msg.value);
    if x.Some? {
      c.t.xapl := x.value;
    } else {
      reply := ErrorReply;
    }
    st := c.t.sock.Write(reply);
  }
}
