# bluez-alsa RFCOMM worker, modelled in Dafny

This project models the RFCOMM worker of bluez-alsa (`src/rfcomm.c`). The worker runs the Hands-Free Profile (HFP) service level connection over one RFCOMM socket, in either role: the Hands-Free unit (HF) or the Audio Gateway (AG). The model covers five parts:

- **AT reader** (`reader.dfy`). `rfcomm_read_at` is the `Reader` class. It owns a 256-character buffer, the position of the NUL written after the last read, and the cursor to the next unparsed message. It reads at most 255 bytes at a time (see the first finding). Each `ReadAt` is proved equal to a pure step function, `ReadStep`. The socket is a `Socket` object: a queue of chunks that `read` returns, a log of the AT messages written to it, and a fixed write error.
- **Handlers** (`handlers.dfy`, `conn.dfy`). The handler table and its lookup are pure functions. The 19 `rfcomm_handler_*_cb` callbacks are methods on the connection record `Conn` and on the `Transport`. The transport gathers the transport, SCO and device fields that the callbacks write.
- **SLC step** (`slc.dfy`). The two profile switches of `rfcomm_thread` are a decision function, `MoveFor`, that picks a `Move`: the new state, the message to send, the codec, the one-shot handler to expect, and whether to announce. `SlcStep` carries out the move and the retry policy. It is proved equal to the pure `Step`, and the retry ceiling is proved about `Step`.
- **Effects** (`effects.dfy`). `Fields` gathers every connection, transport and socket field the loop changes into one value. `Effect` says what each callback does to it, `DispatchEffect` what one dispatch does, and `GainEffect` what a volume change does. The properties shared by all callbacks are proved about these functions.
- **Dispatch and the loop** (`engine.dfy`):
  - message routing: the expected one-shot handler first, then the table, forwarding to the external handler, and the `ERROR` reply;
  - gain synchronisation;
  - relaying from the external handler, and detaching it;
  - errno classification;
  - one iteration of the loop, as `Session.Iterate`.

  `World` is everything one pass reads and changes: the `Fields`, the reader's pending text, the socket's and the external handler's queues, what was forwarded, and whether a handler is attached. Each step of the pass has a function on `World` (`ReceiveSpec`, `ExtSpec`, `ServeSpec`, `AwaitSpec`, `PassSpec`), and each `Session` method is proved equal to its function. The properties of a pass are lemmas about these functions.
- **C text helpers** (`ctext.dfy`). `atoi`, `strchr`, `strsep`, `sscanf("%u,%u")`, C strings, truncating division and unsigned wrap-around are written out, because the handlers depend on them. `atoi` is exact for results that fit in `int`; the narrowing of its result into the fields it is stored in is modelled only where "## Left out" does not say otherwise.

Collaborators outside this file are parameters: the AT parser, the `+CIND` parser, the `+XAPL` scanner, the configured feature masks and whether mSBC support was compiled in. They are fields of `At.Env`, together with the properties the model relies on (`At.EnvValid`). Notifications to D-Bus clients are appended to the transport's `updates` log. Pings to the SCO thread are counted in `pings`.

Two behaviours of the code shape the model:

- **Handler failure.** Only `ECONNABORTED`, `ECONNRESET`, `ENOTCONN`, `ENOTSUP` and `ETIMEDOUT` end the loop (lines 860-872). Any other errno, including a failed callback's, is reported and the loop goes on (`Engine.OnError`).
- **Codec announcement.** On the HF codec path the sampling/codec announcement is made twice:
  - the SLC step announces when it moves from `CC_BCS_SET` to `CONNECTED` (lines 681-688, `Slc.ConnectedAnnounced`);
  - `rfcomm_handler_resp_bcs_ok_cb` announces again on the peer's `OK` (lines 392-393, `Rfcomm.HandleRespBcsOk`).

## Model

| member | source | states |
|---|---|---|
| AtReader.Socket.Write | src/rfcomm.c:98-118 | a write appends the message to the socket's log and succeeds, or fails with the socket's error and appends nothing |
| AtReader.Socket.Read | src/rfcomm.c:62-72 | a read takes the first queued chunk, cut to the limit, and leaves the rest queued |
| AtReader.TakeRead | src/rfcomm.c:62-72 | a chunk returned by `read` never holds more bytes than were asked for |
| AtReader.Reader.constructor | src/rfcomm.c:590 | a fresh reader has no pending message and a NUL-terminated buffer |
| AtReader.Reader.ReadAt | src/rfcomm.c:50-87 | one call equals `ReadStep`: the pending text is parsed when there is one; otherwise at most 255 bytes are read from the socket, an empty read is `ECONNRESET`, and a malformed message leaves the cursor on it with `EBADMSG` |
| AtReader.Reader.Fill | src/rfcomm.c:58-76 | after a non-empty read of at most 255 bytes the buffer holds the bytes read, as a C string; after a failed or empty read the buffer is unchanged |
| AtReader.Reader.ParseCursor | src/rfcomm.c:78-86 | the cursor stays on a malformed message, moves to the text the parser left, or is cleared when nothing is left |
| AtReader.CursorAfter | src/rfcomm.c:78-86 | the cursor's new offset is before the terminating NUL, and the C string at it is exactly the parser's rest |
| AtReader.Reader.Clear | src/rfcomm.c:787-790 | after a malformed message the pending text is dropped |
| AtReader.MalformedRepeats | src/rfcomm.c:40-45 | a malformed message left at the cursor fails with `EBADMSG` again on every call until the caller clears it |
| AtReader.DrainPending | src/rfcomm.c:56-57 | pending text that splits into n messages gives exactly those n messages in order, without touching the socket, and leaves no pending text |
| AtReader.OneReadManyMessages | src/rfcomm.c:56-87 | one read holding n whole messages is consumed by n calls, with one `read` in total |
| AtReader.TerminatorOverrunAsWritten | src/rfcomm.c:63-74 | a read of `sizeof(buffer)` bytes can fill all 256 places, so the NUL at `buffer[len]` falls outside the buffer |
| AtReader.TerminatorInBounds | src/rfcomm.c:63-74 | reading at most 255 bytes leaves room for the NUL |
| Rfcomm.Conn.constructor | src/rfcomm.c:582-588 | a new connection starts `DISCONNECTED` with no expected handler, zero retries, mSBC unsupported, the transport's gains and an empty indicator map |
| Rfcomm.HandleRespOk | src/rfcomm.c:129-143 | `OK` advances the state to the next one (corrected: not past `CONNECTED`), `ERROR` fails with `ENOTSUP`, anything else changes nothing |
| Rfcomm.RespOkSpec | src/rfcomm.c:129-143 | for the corrected step: `OK` below `CONNECTED` moves to the next state, other values keep it, the state stays in the enumeration, and only `ERROR` fails |
| Rfcomm.HandleCindTest | src/rfcomm.c:147-168 | sends the indicator list and `OK`, then raises the state to at least `SLC_CIND_TEST_OK`; a failed write leaves the state as it was |
| Rfcomm.HandleCindGet | src/rfcomm.c:172-185 | sends all-zero indicator values and `OK`, then raises the state to at least `SLC_CIND_GET_OK` |
| Rfcomm.HandleCindRespTest | src/rfcomm.c:189-196 | the indicator map becomes what the parser wrote into it in place, whether or not the parse succeeded (a failure is only reported); the state rises to at least `SLC_CIND_TEST` and the callback never fails |
| Rfcomm.HandleCindRespGet | src/rfcomm.c:200-223 | the comma-separated values are stored through the indicator map, as many as both have, and the state rises to at least `SLC_CIND_GET` |
| Rfcomm.StoreIndicator | src/rfcomm.c:209-213 | one value goes to its indicator's slot; a battery value also sets the level to value*100/5 and is announced |
| Rfcomm.StoreIndicators | src/rfcomm.c:208-217 | the loop leaves the indicators, the battery level and the announcements equal to those of `StoreAll` |
| Rfcomm.StoreAllLast | src/rfcomm.c:208-209 | each indicator slot ends with the last value the map sends to it |
| Rfcomm.StoreAllUntouched | src/rfcomm.c:208-209 | a slot that no map entry names keeps its old value |
| Rfcomm.StoreAllAnnounces | src/rfcomm.c:210-213 | one battery announcement per battery entry stored |
| Rfcomm.StoreAllBattery | src/rfcomm.c:210-211 | the battery level comes from the last battery value, and is unchanged when there is none |
| Rfcomm.CindGetExample | src/rfcomm.c:200-223 | the answer `0,3` to a call/battchg map stores call 0 and battchg 3, sets the battery to 60 and announces it once |
| Rfcomm.HandleCmerSet | src/rfcomm.c:227-238 | acknowledges with `OK` and raises the state to at least `SLC_CMER_SET_OK` |
| Rfcomm.CievOutOfRangeAsWritten | src/rfcomm.c:249-251 | index 0 wraps to 4294967295, and index 21 is one past the 20-entry map; both are outside it |
| Rfcomm.CievPosition | src/rfcomm.c:249-251 | an index names a map entry exactly when it is 1 to 20, and then at the position the code computes |
| Rfcomm.HandleCievResp | src/rfcomm.c:242-266 | an event with a valid index updates only that indicator's slot, pings on call and call-setup, and on battchg sets the battery level to value*100/5 in 32-bit unsigned arithmetic and announces it; anything else changes nothing |
| Rfcomm.CievNegativeBattery | src/rfcomm.c:248-258 | `+CIEV: 1,-1` on a battery indicator stores 4294967295 and sets the level to 858993439 |
| Rfcomm.HandleBiaSet | src/rfcomm.c:270-277 | acknowledges with `OK` and changes nothing else |
| Rfcomm.HandleBrsfSet | src/rfcomm.c:281-304 | stores the HF features as an unsigned 32-bit value; without HF codec negotiation the codec is CVSD; replies `+BRSF:<AG features>` and `OK`; the state rises to at least `SLC_BRSF_SET_OK` |
| Rfcomm.HandleBrsfResp | src/rfcomm.c:308-321 | stores the AG features; without AG codec negotiation the codec is CVSD; the state rises to at least `SLC_BRSF_SET` |
| Rfcomm.HandleVgmSet | src/rfcomm.c:325-335 | both microphone gains take the value, `OK` is sent, and a volume announcement follows only a successful write |
| Rfcomm.HandleVgsSet | src/rfcomm.c:339-349 | both speaker gains take the value, `OK` is sent, and a volume announcement follows only a successful write |
| Rfcomm.HandleBtrhGet | src/rfcomm.c:353-360 | acknowledges with `OK` and changes nothing else |
| Rfcomm.HandleBcsSet | src/rfcomm.c:364-383 | a codec other than the selected one gets `ERROR` and leaves the state as it is; the selected codec gets `OK` and raises the state to at least `CC_BCS_SET_OK` |
| Rfcomm.HandleRespBcsOk | src/rfcomm.c:385-395 | like the `OK` handler, and a successful `OK` announces sampling and codec |
| Rfcomm.HandleBcsResp | src/rfcomm.c:399-416 | selects the codec, echoes `AT+BCS`, expects the peer's `OK` and raises the state to at least `CC_BCS_SET`; a failed write installs no handler and keeps the state |
| Rfcomm.ListsMsbc | src/rfcomm.c:423-431 | the scan of the codec list finds mSBC exactly when 2 is one of its comma-separated values |
| Rfcomm.HandleBacSet | src/rfcomm.c:420-440 | mSBC becomes supported when it is compiled in and listed, and is never switched off; `OK` is sent and the state rises to at least `SLC_BAC_SET_OK` |
| Rfcomm.AccevPair | src/rfcomm.c:455-469 | key 1 sets the battery to value*100/9 and counts a report, key 2 sets the dock state, and other keys change nothing |
| Rfcomm.ApplyAccevPair | src/rfcomm.c:455-469 | one key/value step consumes two tokens and applies `AccevPair`, or stops when no value follows the key; the battery is announced exactly when it was set |
| Rfcomm.ApplyAccev | src/rfcomm.c:450-469 | the battery and dock state are those of `AccevRun` over the announced number of pairs, with one announcement per battery report |
| Rfcomm.HandleIphoneAccevSet | src/rfcomm.c:444-474 | the battery and dock state are those of `AccevRun` over the announced number of pairs, with one announcement per battery report, and `OK` is sent |
| Rfcomm.AccevFullBattery | src/rfcomm.c:454-461 | the pair `1,9` gives a battery level of 100 and one report |
| Rfcomm.AccevUndocked | src/rfcomm.c:462-468 | the pair `2,0` clears the dock state; a key with no value changes nothing |
| Rfcomm.AccevBatteryAnnounced | src/rfcomm.c:454-461 | a run reports the battery at most once per pair, and a run with no report leaves the battery level as it was |
| Rfcomm.AccevBatteryScale | src/rfcomm.c:458 | levels 0 to 9 map into 0 to 100, and only level 9 maps to 100 |
| Rfcomm.HandleXaplSet | src/rfcomm.c:478-502 | a well-formed value stores the accessory's identity and replies `+XAPL=BlueALSA,0`; anything else keeps it and replies `ERROR` |
| Handlers.Lookup | src/rfcomm.c:564-572 | finds nothing exactly when no entry matches the type and command; otherwise gives the callback of the first matching entry |
| Handlers.TableKeysDistinct | src/rfcomm.c:545-560 | no two table entries share a type and command, so table order does not matter |
| Handlers.GetCallbackSpec | src/rfcomm.c:543-573 | the callback for a message is `cb` exactly when the table holds an entry (type, command, `cb`) |
| Handlers.ResponsesOnlyExpected | src/rfcomm.c:545-560 | bare result codes and `+CIND:` responses are never in the table; they reach a handler only as the expected one-shot handler |
| Handlers.Route | src/rfcomm.c:795-822 | the expected handler is consumed exactly when it matches, and then its callback runs; otherwise the callback is `cb` exactly when the table holds the entry (type, command, `cb`); a consumed message is not forwarded; the `ERROR` reply is sent exactly when no callback exists, no external handler is attached and the message is not a response |
| Handlers.UnexpectedResponseIgnored | src/rfcomm.c:816-822 | a stray result code with no expected handler is neither handled nor answered |
| Handlers.ForwardedAndHandled | src/rfcomm.c:806-815 | a known command that no expected handler consumes is both forwarded to the external handler and handled |
| Hfp.Raise | src/rfcomm.c:164-165 | raising the state to a target never lowers it, and gives either the old state or the target |
| Hfp.Slot | src/rfcomm.c:209 | every indicator has a slot inside the transport's indicator array |
| CText.FieldValues | src/rfcomm.c:208-216 | the first value is `atoi` of the whole text; the rest follow each comma |
| CText.FieldCount | src/rfcomm.c:214-216 | there is one value per comma, plus one |
| CText.FieldValuesJoined | src/rfcomm.c:208-216 | joining integers with commas and walking the text again gives them back |
| CText.AtoiDecimalString | src/rfcomm.c:764-765 | `atoi` on the peer's side reads back the gain that `sprintf("+VGM=%d")` wrote, whatever non-digit follows |
| CText.ScanPairWritten | src/rfcomm.c:248 | `sscanf("%u,%u")` reads back two `unsigned int` values written with a comma between them |
| CText.StrToUL | src/rfcomm.c:248 | the `strtoul` step of `%u`: a value above ULONG_MAX saturates, a non-negative one is kept, a negated one wraps modulo 2^64 |
| CText.ScanUnsigned | src/rfcomm.c:248 | a `%u` conversion always yields a value below 2^32 |
| CText.ScanPair | src/rfcomm.c:248 | both values of a successful `"%u,%u"` scan are below 2^32 |
| CText.ScanPairNegative | src/rfcomm.c:248 | `%u` accepts a sign: `1,-1` scans as 1 and 4294967295 |
| CText.ScanUnsignedSaturates | src/rfcomm.c:248 | a digit run above ULONG_MAX scans as 4294967295 |
| CText.CStr | src/rfcomm.c:74 | the C string is the prefix before the first NUL, and holds no NUL |
| CText.CStrDrop | src/rfcomm.c:85 | moving a pointer d characters into a C string gives the rest of the same string |
| CText.StrSepSplits | src/rfcomm.c:451-455 | `strsep` yields the token before the first comma, and text equal to the token, a comma and the rest |
| CText.CDiv | src/rfcomm.c:211 | C division truncates toward zero |
| CText.U32 | src/rfcomm.c:287 | storing an `int` into the unsigned features field gives the one value below 2^32 congruent to it |
| CText.U64 | src/rfcomm.c:451 | the pair count as a `size_t` is the one value below 2^64 congruent to it, so a negative count wraps |
| Slc.MoveAdvances | src/rfcomm.c:627-728 | the SLC switches never lower the state, stay inside the enumeration, and change nothing before `SLC_CMER_SET_OK` |
| Slc.SlcStep | src/rfcomm.c:611-734 | one SLC step on the connection equals `Step` applied to the move that the profile's switch picks, and the state never goes down |
| Slc.StepWith | src/rfcomm.c:611-734 | carrying out any move that does not lower the state equals `Step` |
| Slc.Carry | src/rfcomm.c:627-728 | the new state, the message sent, the codec, the expected handler and the announcement are exactly those of the move; nothing beyond the state changes when the send fails |
| Slc.RetryPolicy | src/rfcomm.c:611-625 | at `CONNECTED` nothing happens and the wait is unbounded; progress resets the retry counter; a stalled state beyond the ceiling gives `ETIMEDOUT`; a bounded wait always follows an installed handler and counts one retry |
| Slc.GivesUp | src/rfcomm.c:611-625 | with k retries left, a silent peer sees k timed-out waits and then `ETIMEDOUT`, and the pending command is sent once per wait |
| Slc.Attempts | src/rfcomm.c:620-625 | from a fresh state, a silent peer receives the command exactly `RFCOMM_SLC_RETRIES + 1` times before the connection gives up |
| Slc.HfOpening | src/rfcomm.c:629-637 | the HF opens with `AT+BRSF=<features>` and expects `+BRSF`, then waits for `OK` |
| Slc.HfCodecList | src/rfcomm.c:638-655 | with AG codec negotiation the HF lists `1,2` (or `1` without mSBC) and waits for `OK`; without it, and after the list, it asks `AT+CIND=?` |
| Slc.CmerAcknowledged | src/rfcomm.c:674-728 | after `+CMER`, a peer that negotiates codecs keeps the connection at `SLC_CONNECTED` without announcing; otherwise it becomes `CONNECTED` and is announced |
| Slc.AgCodecChoice | src/rfcomm.c:705-717 | the AG proposes mSBC exactly when both sides support it, otherwise CVSD; it selects that codec and expects `AT+BCS` |
| Slc.ConnectedAnnounced | src/rfcomm.c:674-728 | a step announces sampling and codec exactly when it leaves the connection `CONNECTED`, for either profile |
| Slc.CodecOkOvershootsAsWritten | src/rfcomm.c:681-688 | on the HF codec path the step sets `CONNECTED` while the one-shot `OK` handler is still expected; that `OK` then moves the state to 14, outside the enumeration |
| Slc.CodecOkStaysConnected | src/rfcomm.c:129-135 | with the corrected `OK` handler, the same sequence ends at `CONNECTED` |
| Effects.Effect | src/rfcomm.c:129-502 | every callback keeps the fields valid: 8 indicators, a 20-entry map, states inside the enumeration |
| Effects.EffectEnvelope | src/rfcomm.c:129-502 | whichever callback runs, the state never goes down, the retry bookkeeping is untouched, only the `+BCS` answer installs an expected handler, replies are only appended and none on a failing socket, and a failure is the socket's write error or the `ENOTSUP` of an `ERROR` answer |
| Effects.EffectCodecAndState | src/rfcomm.c:281-416 | only the `+BRSF` and `+BCS` callbacks touch the codec, and the indicator, gain, `+BIA`, `+BTRH`, `+IPHONEACCEV` and `+XAPL` callbacks keep the state |
| Effects.DispatchEffect | src/rfcomm.c:796-822 | a dispatch keeps the fields valid |
| Effects.DispatchSpec | src/rfcomm.c:796-822 | a dispatch never lowers the state and only appends to the socket; a consumed handler is gone afterwards unless `+BCS` installed the next; with no callback the state is kept and `ERROR` is sent exactly when the routing asks; an `OK` no handler expects changes nothing |
| Effects.GainSyncQuiet | src/rfcomm.c:761-774 | nothing is sent exactly when both gains are unchanged, and otherwise one message per changed gain; a synchronisation that did not fail leaves both gains equal to the transport's; only the gains and the socket log change |
| Engine.Invoke | src/rfcomm.c:812-815 | running a callback does to the connection, the transport and the socket exactly what `Effect` says for that callback |
| Engine.Dispatch | src/rfcomm.c:795-822 | one dispatch does exactly what `DispatchEffect` says, and forwards the message to the external handler exactly when `Route` says |
| Engine.GainSync | src/rfcomm.c:757-779 | a volume change does exactly what `GainEffect` says: `+VGM`/`+VGS` for the gains that changed, the microphone gain always taken over, the speaker gain not when the microphone write fails |
| Engine.RelayExt | src/rfcomm.c:830-845 | up to 255 bytes from the external handler are sent as one raw message; a failed or empty read detaches the handler and sends nothing |
| Engine.Detach | src/rfcomm.c:853-858 | after an I/O error the external handler is detached |
| Engine.OnError | src/rfcomm.c:860-872 | the loop ends exactly on a disconnection errno, carrying it; any other errno lets the loop continue |
| Engine.EngineErrorsFatal | src/rfcomm.c:860-872 | reset, timeout and `ENOTSUP` end the connection, while `EBADMSG` and other I/O errors do not |
| Engine.DeliverSpec | src/rfcomm.c:796-824 | delivering a message keeps the fields valid, never lowers the state, changes only the fields and what was forwarded, and stops the pass only on a failed callback or reply, ending the loop only on a disconnection |
| Engine.ReceiveSpec | src/rfcomm.c:786-824 | reading and delivering a message keeps the fields valid, never lowers the state, leaves the external handler alone, and ends the loop only on a disconnection |
| Engine.ExtSpec | src/rfcomm.c:830-858 | serving the external handler only appends to the socket log and changes nothing on the socket side; it ends the loop only on a disconnection |
| Engine.ServeSocketSpec | src/rfcomm.c:786-858 | serving the socket and then the external handler keeps the fields valid, never lowers the state, and ends the loop only on a disconnection |
| Engine.ServeSpec | src/rfcomm.c:757-858 | serving what `poll` reported keeps the fields valid, never lowers the state, and ends the loop only on a disconnection |
| Engine.StepValid | src/rfcomm.c:611-734 | the SLC step keeps the fields valid and never lowers the state |
| Engine.AwaitSpec | src/rfcomm.c:737-858 | what follows the SLC step keeps the fields valid and never lowers the state |
| Engine.PassSpec | src/rfcomm.c:598-873 | one pass keeps the fields valid and never lowers the state |
| Engine.PassExit | src/rfcomm.c:741-753 | a pass ends the connection only on an errno that `IsFatal` names or on a `poll` failure with the timeout the SLC step chose |
| Engine.BufferedSkipsPoll | src/rfcomm.c:737-739 | with a message buffered, a pass does not depend on what `poll` would report, leaves the external handler's queue and attachment alone, and only appends to what was forwarded |
| Engine.HangupResets | src/rfcomm.c:825-828 | a socket hang-up with no data ends the connection with `ECONNRESET`, unless the volume write before it already failed; without a volume change nothing else changes |
| Engine.ExtOnlyWhenReported | src/rfcomm.c:830-858 | the external handler's queue is read only on a report, it is detached only on a report or a hang-up, and a non-empty read is relayed to the socket unchanged |
| Engine.StaleExtReadAsWritten | src/rfcomm.c:737-858 | after `goto read` with the previous report's data already read, the as-written step (`AwaitBufferedAsWritten`, which serves the handler on the previous `poll`'s report) never ends, whatever was reported since, exactly when the buffered message did not stop the pass; the modelled wait always ends with the receive's result, leaving the handler's queue empty and its attachment unchanged |
| Engine.Session.constructor | src/rfcomm.c:582-595 | a session starts `DISCONNECTED` with no expected handler and no pending message |
| Engine.Session.Deliver | src/rfcomm.c:796-824 | dispatching a message that was read does exactly what `DeliverSpec` says |
| Engine.Session.Receive | src/rfcomm.c:784-824 | reading and dispatching one message does exactly what `ReceiveSpec` says: `ReadStep`, then `EBADMSG` drops the pending text and continues, another read error goes to `OnError`, and a message is delivered |
| Engine.Session.ServeSocket | src/rfcomm.c:784-858 | serving the socket and the external handler does exactly what `ServeSocketSpec` says: a message, or `ECONNRESET` on a hang-up, then the external handler unless the pass stopped |
| Engine.Session.Serve | src/rfcomm.c:757-858 | serving a `poll` report does exactly what `ServeSpec` says: the volume change first, a failure of it going to `OnError`, then the socket and the external handler |
| Engine.Session.ServeExt | src/rfcomm.c:830-858 | serving the external handler does exactly what `ExtSpec` says: data is relayed, a failed or empty read or a hang-up detaches it, and with no report nothing changes |
| Engine.Session.Await | src/rfcomm.c:737-858 | after the SLC step, does exactly what `AwaitSpec` says: the buffered message without `poll`, or `poll` (timeout and `EINTR` continue, a failure ends the loop) and what it reported |
| Engine.Session.StepSlc | src/rfcomm.c:611-734 | the SLC step on the session's world is `Step` applied to the move the profile's switch picks |
| Engine.Session.Iterate | src/rfcomm.c:598-873 | one pass does exactly what `PassSpec` says |

## Left out

- `poll`, threads, cancellation and `EINTR` retries (lines 741-753, 62-65, 110-113, 834-836): `poll` is a function parameter from timeout to outcome; an interrupted `poll` continues; the `EINTR` retry loops around `read` and `write` are not modelled.
- The AT parser, `at_build` and the `+CIND` parser are not part of this model. They are parameters with the properties the model relies on (the parser's rest is a proper suffix; the `+CIND` parser, given the 20-entry index map, leaves 20 entries). A message forwarded to the external handler is recorded as the message itself, not as the text `at_build` makes of it.
- `sscanf("%x-%x-%u,%u")` in the `+XAPL` handler is a parameter returning the four numbers or nothing.
- Write failure is a fixed property of each socket (`writeError`): a handler that writes twice either has both messages sent or neither, so a first write that succeeds followed by a second that fails is not modelled.
- D-Bus notifications and pings to the SCO thread are logs (`updates`, `pings`), not calls; log messages (`debug`, `warn`, `error`) are left out.
- `ENABLE_MSBC` is `Env.msbcEnabled` instead of a compile-time switch.
- Rfcomm.HandleCindRespGet: the values `atoi(tmp) * 100 / 5`, and `* 100 / 9` in the `+IPHONEACCEV` handler, use unbounded integers; signed `int` overflow for huge values is not modelled.
- Slc.SlcStep: the C switches with their fall-throughs are modelled as a decision function (`MoveFor`) followed by carrying out the move, instead of as one imperative switch; the decision and its effects are proved equal to the step.
- Engine.Session.Iterate: models the corrected behaviour, where the external handler is read only on a fresh `poll` report; the as-written behaviour is captured by `Engine.StaleExtReadAsWritten`. After `goto read`, the code also tests the descriptor `pfds[2].fd` from the previous `poll`; the model forwards according to the transport's current attachment.
- AtReader.Reader.ReadAt: reads at most 255 bytes, the corrected limit of the first finding; the code asks `read` for `sizeof(buffer)` = 256 bytes. The as-written read is `AtReader.TerminatorOverrunAsWritten`.
- Rfcomm.HandleCindRespTest: the `+CIND` parser is a parameter given the old index map; the model stores the map exactly as the parser returns it, whether or not the parse succeeded, and promises nothing about which entries a failed parse rewrites.
- CText.Atoi: returns the exact decimal value for any digit run; C `atoi` of a value outside `int` is undefined behaviour and is not modelled.
- Rfcomm.HandleVgmSet, Rfcomm.HandleVgsSet, Rfcomm.HandleBcsResp, Rfcomm.HandleBrsfSet, Rfcomm.HandleBrsfResp: the fields that receive `atoi` (the gains `sco.mic_gain`/`sco.spk_gain` and `c->mic_gain`/`c->spk_gain` at lines 329 and 343, the codec at line 406, the HF features at line 287, the AG features at line 311) are declared in headers that are not part of this model. The gains and the codec are kept as unbounded integers and the features as `U32`; any narrower width on assignment is not modelled. In particular the two copies of a gain are always equal in the model, so a width difference between them, which would make the next volume sync (lines 757-779) re-send the gain, cannot be shown.
- Rfcomm.HandleCievResp: the width of `battery_level` and of the indicator array are declared in headers that are not part of this model; the level is kept as the 32-bit unsigned quotient and the indicator as the scanned `unsigned int`, without any further narrowing on assignment.
- The `ba_transport_pthread_cleanup` cleanup and the close of the socket on exit (lines 875-878) are left out.

## Findings

| source | as written | input that shows it | evidently intended | confidence | as-written member | corrected member |
|---|---|---|---|---|---|---|
| src/rfcomm.c:63-74 | `read` may return `sizeof(buffer)` = 256 bytes and `buffer[len] = '\0'` then writes one past the end | a peer sending 256 or more bytes in one RFCOMM frame | read at most 255 bytes, as the external-handler read at line 834 does | high, not executed | AtReader.TerminatorOverrunAsWritten | AtReader.TerminatorInBounds |
| src/rfcomm.c:249-251 | the `+CIEV` index is used as `hfp_ind_map[index - 1]` without a range check | `+CIEV: 0,1` (index wraps to 4294967295) or `+CIEV: 21,1` | ignore an index outside 1..20 | high, not executed | Rfcomm.CievOutOfRangeAsWritten | Rfcomm.CievPosition |
| src/rfcomm.c:681-688 | on the HF codec path the SLC step sets `CONNECTED` while the `+BCS` `OK` handler is still expected, and that handler adds one to the state | AG with codec negotiation: `+BCS: 1`, the step, then `OK` gives state 14 | the `OK` completes codec selection at `CONNECTED` | medium, not executed | Slc.CodecOkOvershootsAsWritten | Slc.CodecOkStaysConnected |
| src/rfcomm.c:737-739 | `goto read` skips `poll`, but line 830 still tests the external handler's readiness from the previous `poll` and reads it again | a previous iteration that read the external handler, then a buffer holding two AT messages; the second iteration blocks in `read` | read the external handler only on a fresh report | medium, not executed | Engine.StaleExtReadAsWritten | Engine.Session.Iterate |
