/** The handler records, the static table `rfcomm_get_callback` searches,
    and the routing decision of one dispatch: expected handler first, then the
    table, then the external handler or an ERROR reply. */
module Handlers {
  import opened Sys
  import opened At

  /** The message callbacks of the engine. */
  datatype Callback =
    | RespOk | CindTest | CindGet | CindRespTest | CindRespGet | CmerSet
    | CievResp | BiaSet | BrsfSet | BrsfResp | VgmSet | VgsSet | BtrhGet
    | BcsSet | RespBcsOk | BcsResp | BacSet | IphoneAccevSet | XaplSet

  /** A handler: the message kind and command it answers, and its callback. */
  datatype Handler = Handler(kind: AtType, command: string, callback: Callback)

  const RespOkHandler := Handler(Resp, "", RespOk)
  const CindTestHandler := Handler(CmdTest, "+CIND", CindTest)
  const CindGetHandler := Handler(CmdGet, "+CIND", CindGet)
  const CindRespTestHandler := Handler(Resp, "+CIND", CindRespTest)
  const CindRespGetHandler := Handler(Resp, "+CIND", CindRespGet)
  const CmerSetHandler := Handler(CmdSet, "+CMER", CmerSet)
  const CievRespHandler := Handler(Resp, "+CIEV", CievResp)
  const BiaSetHandler := Handler(CmdSet, "+BIA", BiaSet)
  const BrsfSetHandler := Handler(CmdSet, "+BRSF", BrsfSet)
  const BrsfRespHandler := Handler(Resp, "+BRSF", BrsfResp)
  const VgmSetHandler := Handler(CmdSet, "+VGM", VgmSet)
  const VgsSetHandler := Handler(CmdSet, "+VGS", VgsSet)
  const BtrhGetHandler := Handler(CmdGet, "+BTRH", BtrhGet)
  const BcsSetHandler := Handler(CmdSet, "+BCS", BcsSet)
  const BcsRespHandler := Handler(Resp, "+BCS", BcsResp)
  const BacSetHandler := Handler(CmdSet, "+BAC", BacSet)
  const IphoneAccevSetHandler := Handler(CmdSet, "+IPHONEACCEV", IphoneAccevSet)
  const XaplSetHandler := Handler(CmdSet, "+XAPL", XaplSet)
  /** Installed by the +BCS response callback to await the OK of AT+BCS. */
  const RespBcsOkHandler := Handler(Resp, "", RespBcsOk)

  /** The static table, in the order it is searched. */
  const Table: seq<Handler> := [
    CindTestHandler, CindGetHandler, CmerSetHandler, CievRespHandler,
    BiaSetHandler, BrsfSetHandler, VgmSetHandler, VgsSetHandler,
    BtrhGetHandler, BcsSetHandler, BcsRespHandler, BacSetHandler,
    IphoneAccevSetHandler, XaplSetHandler]

  predicate Accepts(h: Handler, msg: AtMessage)
  {
    h.kind == msg.kind && h.command == msg.command
  }

  /** Entry `i` is the first one that accepts `msg`. */
  predicate FirstMatch(table: seq<Handler>, msg: AtMessage, i: int)
  {
    0 <= i < |table| && Accepts(table[i], msg) &&
    forall j :: 0 <= j < i ==> !Accepts(table[j], msg)
  }

  /** Linear search: the callback of the first entry whose kind and command
      both match. */
  function Lookup(table: seq<Handler>, msg: AtMessage): (r: Option<Callback>)
    ensures r.None? <==> forall i :: 0 <= i < |table| ==> !Accepts(table[i], msg)
    ensures r.Some? ==> exists i :: FirstMatch(table, msg, i) && table[i].callback == r.value
  {
    if table == [] then None
    else if Accepts(table[0], msg) then Some(table[0].callback)
    else
      var r := Lookup(table[1..], msg);
      assert forall i :: 1 <= i < |table| ==> table[i] == table[1..][i - 1];
      r
  }

  /** `rfcomm_get_callback`. */
  function GetCallback(msg: AtMessage): Option<Callback>
  {
    Lookup(Table, msg)
  }

  /** No two entries of the table answer the same kind and command. */
  lemma TableKeysDistinct()
    ensures forall i, j :: 0 <= i < j < |Table| ==>
      (Table[i].kind, Table[i].command) != (Table[j].kind, Table[j].command)
  {
  }

  /** The table lookup finds a callback exactly when an entry with that kind,
      command and callback is in the table. */
  lemma GetCallbackSpec(msg: AtMessage, cb: Callback)
    ensures GetCallback(msg) == Some(cb) <==>
      Handler(msg.kind, msg.command, cb) in Table
  {
    TableKeysDistinct();
    var r := GetCallback(msg);
    if Handler(msg.kind, msg.command, cb) in Table {
      var i :| 0 <= i < |Table| && Table[i] == Handler(msg.kind, msg.command, cb);
      assert Accepts(Table[i], msg);
      var k :| FirstMatch(Table, msg, k) && Table[k].callback == r.value;
      assert k == i;
    }
  }

  /** Bare responses (OK, ERROR) and +CIND responses are not in the table:
      only an expected handler can take them. */
  lemma ResponsesOnlyExpected(msg: AtMessage)
    requires msg.kind == Resp && (msg.command == "" || msg.command == "+CIND")
    ensures GetCallback(msg).None?
  {
  }

  /** `GetCallback` for every callback at once. */
  lemma GetCallbackTable(msg: AtMessage)
    ensures forall cb :: GetCallback(msg) == Some(cb) <==> Handler(msg.kind, msg.command, cb) in Table
  {
    forall cb
      ensures GetCallback(msg) == Some(cb) <==> Handler(msg.kind, msg.command, cb) in Table
    {
      GetCallbackSpec(msg, cb);
    }
  }

  /** What one dispatch does with a message. */
  datatype Routing = Routing(
    callback: Option<Callback>, // the callback that runs
    consumed: bool,             // the expected handler took the message
    forward: bool,              // the message goes to the external handler
    nack: bool)                 // an ERROR reply goes back to the peer

  /** Dispatch decision: the expected handler, if it matches exactly, wins
      and is consumed; otherwise the table is searched. Unless consumed, the
      message is forwarded when an external handler is attached. Without a
      callback and without an external handler, a command gets ERROR and a
      response is ignored. */
  function Route(expected: Option<Handler>, msg: AtMessage, extAttached: bool): (r: Routing)
    ensures r.consumed <==> expected.Some? && Accepts(expected.value, msg)
    ensures r.consumed ==> r.callback == Some(expected.value.callback)
    ensures !r.consumed ==>
      forall cb :: r.callback == Some(cb) <==> Handler(msg.kind, msg.command, cb) in Table
    ensures r.forward <==> extAttached && !r.consumed
    ensures r.nack <==> r.callback.None? && !extAttached && msg.kind != Resp
  {
    GetCallbackTable(msg);
    var consumed := expected.Some? && Accepts(expected.value, msg);
    var cb := if consumed then Some(expected.value.callback) else GetCallback(msg);
    Routing(cb, consumed, extAttached && !consumed, cb.None? && !extAttached && msg.kind != Resp)
  }

  /** An OK or ERROR that no handler expects reaches no callback and is
      never answered. */
  lemma UnexpectedResponseIgnored(msg: AtMessage, extAttached: bool)
    requires msg.kind == Resp && msg.command == ""
    ensures Route(None, msg, extAttached).callback.None?
    ensures !Route(None, msg, extAttached).nack
  {
    ResponsesOnlyExpected(msg);
  }

  /** A static callback still runs for a message that is also forwarded. */
  lemma ForwardedAndHandled(msg: AtMessage, expected: Option<Handler>)
    requires GetCallback(msg).Some?
    requires expected.None? || !Accepts(expected.value, msg)
    ensures Route(expected, msg, true).forward
    ensures Route(expected, msg, true).callback == GetCallback(msg)
  {
  }
}
