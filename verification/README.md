# Modem bring-up programs: MQTT publisher and cellular UDP echo

This is a Dafny model of two Zephyr test applications for a cellular modem
reached over PPP.

- **`mqtt_test`** does the following in order:
  - power-cycles the modem's LDO rail;
  - checks and resumes the modem;
  - brings up the PPP interface and waits for the link;
  - resolves and connects to an MQTT broker;
  - waits a bounded time for the CONNACK, where a return code of 0 means accepted (section 3.2.2.3 of MQTT 3.1.1);
  - publishes at most five QoS 0 messages (section 4.3.1 of MQTT 3.1.1);
  - disconnects once.
- **`cellular_test`** runs the same power sequence and link wait. It then opens a UDP socket and does five send/receive rounds with an echo service on port 7 (RFC 862). It closes the socket and idles for ever.

Every decision in both programs depends only on what the environment answers. The model makes those answers inputs:

- the readiness of the rail and of the modem;
- each `net_if_is_up`, `poll`, `mqtt_input` (with the events it delivered), `mqtt_live`, `sendto` and `recvfrom` result.

Each repeated call is an oracle `nat -> answer`, indexed by call number. A run produces its exit and a trace of the observable steps:

- rail switches, sleeps, log lines whose presence matters;
- resume, PPP up, broker and socket calls;
- closes, and terminator writes together with whether they fell inside the buffer.

The properties are stated over the exit and the trace.

The modules are:

- `Errno`: the errno classification.
- `MqttEvents`: the event callback and its `connected` flag and poll descriptor.
- `Trace`: steps and the measures over them.
- `Power`: the LDO sequence.
- `LinkWait`: the PPP countdown loop both programs share.
- `Payload`: the `"Message %u from Zephyr"` text.
- `MqttApp`: the MQTT `main`.
- `UdpEcho`: the echo rounds.
- `CellularApp`: the cellular `main`.

The model keeps the programs' defects as behaviour and states them as properties:

- **Out-of-bounds terminator.** The terminator write lands outside the 32-byte buffer when a receive fails or fills the buffer.
- **Use after close.** A failed receive closes the socket, but later rounds still use the closed descriptor.
- **Double close.** The socket is closed again after the loop.
- **Missing modem.** A missing modem device is only logged, and the program carries on.
- **Unterminated log buffer.** A datagram of 32 bytes or more fills the buffer, and its terminator at index 32 misses the array. If those 32 bytes hold no zero, the buffer handed to the `%s` log has no terminator, and the log reads past the array.
- **Late disconnect.** A DISCONNECT is noticed only at the head of the next publish round.

## Model

| member | source | states |
|---|---|---|
| Errno.Classify | cellular_test/src/main.c:117-139 | Every errno has a category. The category is `Unspecified` exactly when the value is none of ENETUNREACH, EHOSTUNREACH, EADDRNOTAVAIL, ENOBUFS, EACCES or EIO. Any other category stands for the very errno that chose it. |
| Errno.ClassifyCodeOf | cellular_test/src/main.c:117-135 | Each named category is reached from its own errno, so classification inverts the category-to-errno map. |
| Errno.ClassifyInjective | cellular_test/src/main.c:117-135 | Two errno values share a named category only when they are equal, so the classification is one-to-one on its listed cases. |
| MqttEvents.OnEvent | mqtt_test/src/main.c:76-103 | After an event the client is connected exactly when the event is an accepting CONNACK, or when it was connected before and the event is not a DISCONNECT. The descriptor becomes -1 exactly on a DISCONNECT. A refused CONNACK, a PUBACK or any other event changes nothing. |
| MqttEvents.ConnectedAfterEvents | mqtt_test/src/main.c:80-94 | After a batch of events, the flag is what the last deciding event in it says: an accepting CONNACK raises it and a DISCONNECT lowers it. With no deciding event the flag is unchanged. |
| MqttEvents.PollFdAfterEvents | mqtt_test/src/main.c:90-94 | After a batch of events, the poll descriptor is -1 exactly when the batch held a DISCONNECT. Otherwise it is unchanged. |
| MqttEvents.StaysConnected | mqtt_test/src/main.c:80-101 | A connected client stays connected through any batch without a DISCONNECT. |
| Power.ShutdownModemPower | mqtt_test/src/main.c:63-73 | When the rail is not ready, nothing happens at all: no switch, no log, no sleep. Otherwise the rail is switched off and the last step is the 2000 ms settle. It never switches on. |
| Power.SetupModemPower | mqtt_test/src/main.c:45-61 | When the rail is not ready, only the not-ready log line is written. There is no switch and no sleep. Otherwise the rail is switched on and the settle is 100 ms. The failure line is logged exactly when `led_on` returned a negative status, and the settle still happens. |
| Power.PowerCycle | cellular_test/src/main.c:19-54 | The off switch happens exactly when the rail was ready at the first check, and the on switch exactly when it was ready at the second. The total sleep is 2000 ms for an executed off half plus 100 ms for an executed on half. A failed switch-on is logged but does not stop the sequence. |
| Power.OffBeforeOn | cellular_test/src/main.c:53-54 | In the power sequence, every switch-off comes before every switch-on. |
| LinkWait.DownRun | mqtt_test/src/main.c:194 | Counts the leading "down" answers, up to the budget. Every answer before the count is down. The answer at the count is up unless the budget ran out. |
| LinkWait.AwaitLink | mqtt_test/src/main.c:193-201 | The number of one-second sleeps is the number of leading "down" answers, capped at the budget. The loop makes one more query than it sleeps when the link came up in time, and exactly the budget otherwise. The countdown values it sees are budget, budget-1, …, which are the pre-decrement values. They are logged only in the verbose (MQTT) copy. Success is the answer to the separate query after the loop. |
| LinkWait.WaitLoop | mqtt_test/src/main.c:193-197 | The `while` loop sleeps once for every leading "down" answer, up to the budget. It queries once more than it sleeps exactly when the link came up in time. The countdown it sees and the steps it takes are those of that many passes. |
| LinkWait.FirstUpAt | mqtt_test/src/main.c:194-197 | When the k-th query is the first to answer up, exactly k-1 sleeps happen. |
| LinkWait.NeverUp | cellular_test/src/main.c:80-83 | A link that never comes up costs the whole budget of queries and sleeps. |
| Payload.Decimal | mqtt_test/src/main.c:271 | The `%u` rendering is a non-empty string of decimal digits with no leading zero. |
| Payload.DecimalRoundTrip | mqtt_test/src/main.c:271 | Reading the digits back gives the number that was formatted. |
| Payload.DecimalLength | mqtt_test/src/main.c:271 | A number below 10^k takes at most k digits. |
| Payload.Message | mqtt_test/src/main.c:271 | The payload is "Message ", then the round number's digits, then " from Zephyr". |
| Payload.MessageRoundTrip | mqtt_test/src/main.c:271 | The round number can be read back from the payload, so no two rounds publish the same text. |
| Payload.MessageFits | mqtt_test/src/main.c:173 | For every value of the 32-bit counter, the payload is at most 30 characters. It therefore fits the 64-byte buffer together with its terminator. |
| MqttApp.Messages | mqtt_test/src/main.c:270-272 | The payloads of rounds 1 to n, consecutive from 1. |
| MqttApp.AckSlice | mqtt_test/src/main.c:231-241 | One CONNACK slice makes exactly one 1000 ms poll. Input is read only when the poll returned a positive count with POLLIN. The slice ends the wait exactly on a negative poll result or a failed input. The client state is the callback applied to the events delivered. |
| MqttApp.AckStopAt | mqtt_test/src/main.c:230 | Any slice count at which the wait's condition says stop, with no stop before it, is the wait's length. The wait's length is therefore unique. |
| MqttApp.AckStopFirst | mqtt_test/src/main.c:230 | No slice before the wait's length stops it. |
| MqttApp.AckAfterFacts | mqtt_test/src/main.c:229-242 | After k slices the wait has made exactly k polls and consumed no keep-alive. Every step is a poll or an input, and the client state is the callback replayed over them. A slice that ended on a poll or input error names the answer that failed. |
| MqttApp.AckLoop | mqtt_test/src/main.c:229-242 | The wait loop stops at the first slice count at which the wait's condition says stop, and none before. It makes at most 10 slices. The state it leaves equals that many back-to-back slices. A client already connected makes zero slices. |
| MqttApp.AwaitConnAck | mqtt_test/src/main.c:229-247 | The CONNACK wait stops at the first slice that failed, at the first slice after which the flag is up, or after 10 slices, whichever comes first. No earlier slice met any of these. The outcome is read off where it stopped: a poll or input error, an acknowledgement when the flag is up, and a timeout otherwise. A timeout means exactly 10 polls and the flag still down, and a failure names the failing answer. An already-connected client polls zero times. |
| MqttApp.PublishRound | mqtt_test/src/main.c:250-274 | A round breaks before publishing exactly on a negative poll result, a failed input after POLLIN, or a keep-alive result other than 0 or -EAGAIN. Otherwise it publishes exactly message n+1. It never disconnects. It stays connected when connected and no DISCONNECT arrives. |
| MqttApp.TickAnswers | mqtt_test/src/main.c:250-268 | A round makes exactly one poll and consumes inputs and keep-alives only forward. A round that breaks names the answer that broke it: a negative poll, a failed input, or a keep-alive code other than 0 and -EAGAIN. |
| MqttApp.TickHealthy | mqtt_test/src/main.c:250-268 | A connected client whose round sees only healthy answers publishes and stays connected. |
| MqttApp.HealthyTicks | mqtt_test/src/main.c:249-275 | When every answer consumed so far was healthy, each completed round published and the flag is still up. |
| MqttApp.LoopStopStep | mqtt_test/src/main.c:249 | A loop head that finds the count below 5 and the flag up, followed by a publishing round, does not stop the loop. |
| MqttApp.LoopStopFirst | mqtt_test/src/main.c:249-268 | Every round before the loop's stop began with the flag up and published. |
| MqttApp.LoopStopBefore | mqtt_test/src/main.c:249-268 | The loop stops no later than any round count at which its condition says stop. |
| MqttApp.PlayRound | mqtt_test/src/main.c:250-274 | A round leaves the client where the control of the round says. It publishes message n+1 exactly when it did not break, replays the callback over its steps, and never disconnects. |
| MqttApp.RoundLoop | mqtt_test/src/main.c:249-275 | The loop completes rounds until its head sees 5 rounds done or the flag down, or a round breaks. The client it leaves is the one that many rounds leave. Its steps publish messages 1 to count and never disconnect. |
| MqttApp.LoopEndFacts | mqtt_test/src/main.c:249-268 | Where the loop leaves the client decides its exit. A lost connection means the flag was down at a head before the fifth round. A break names the failing answer. Healthy answers throughout mean the count was reached. |
| MqttApp.PublishRounds | mqtt_test/src/main.c:249-275 | The loop runs exactly as many rounds as come before the first stop. No head before the stop saw the flag down or the count reached, and no round before it broke. The exit is the stop's reason: count reached exactly when 5 rounds were done, and connection lost exactly when the flag was down at that head before the fifth round. A break names its failing answer. The payloads published are messages 1 to count, in order. It never disconnects. A connected client with only healthy answers publishes exactly 5 times. |
| MqttApp.DisconnectEndsLoop | mqtt_test/src/main.c:249-275 | Suppose round j published, its input succeeded, and the last connect-deciding event of that input was a DISCONNECT. Then round j is the loop's last, and the loop reports the lost connection unless round j was the fifth. |
| MqttApp.DisconnectNoticedNextRound | mqtt_test/src/main.c:249-272 | Suppose a connected round's poll reports POLLIN, its input succeeds, the last connect-deciding event of that input is a DISCONNECT, and the keep-alive is tolerable. That round still publishes its message and ends with the flag down. Only the next loop head sees the change. |
| MqttApp.BringUp | mqtt_test/src/main.c:180-201 | Start-up succeeds exactly when the modem is ready, the PPP interface exists and the query after the link wait says up. Each early exit names the first check that failed. Start-up takes no broker-session step. |
| MqttApp.LinkStage | mqtt_test/src/main.c:185-201 | After the resume and PPP bring-up, the link stage succeeds exactly when the final query says up, and otherwise reports the link down. It takes no broker-session step. |
| MqttApp.Converse | mqtt_test/src/main.c:229-282 | The session after the connect ends as the answers dictate: with the CONNACK wait's verdict where the wait first stops, or, once acknowledged, with the publish loop's first stop from that point. A CONNACK-wait exit has no disconnect and no publish, and a timeout polled 10 times. A finished session disconnects exactly once, as its last step, after publishing messages 1 to count. |
| MqttApp.AckExitShape | mqtt_test/src/main.c:234-247 | Returning from the CONNACK wait publishes nothing and never disconnects. |
| MqttApp.PublishAndDisconnect | mqtt_test/src/main.c:249-282 | The session finishes with the publish loop's count and exit. Exactly one disconnect follows, whatever ended the loop. |
| MqttApp.BrokerSession | mqtt_test/src/main.c:204-282 | The session's exit is the one the answers dictate. It is a resolve failure exactly when `getaddrinfo` failed, and a refusal exactly when it resolved and `mqtt_connect` failed. In those two cases the session stops right after the failing call, with no publish and no disconnect. It finishes exactly when both calls succeeded and the CONNACK wait ended acknowledged. It never ends in a start-up exit. |
| MqttApp.ConnectedSession | mqtt_test/src/main.c:204-282 | Once the broker resolved and accepted the connection, the exit is the one the answers dictate. The trace opens with the settle, the resolve and the connect. It has the session shape: one disconnect, at the end, exactly when the publish loop was reached; messages 1 to count published; 10 polls on a CONNACK timeout. |
| MqttApp.RunMqtt | mqtt_test/src/main.c:169-287 | `main` returns -1 for the modem, PPP and link exits and 0 for every later one. Those three exits happen exactly when start-up fails. After a successful start-up the exit is the session's, as the answers dictate, and a resolve failure happens exactly then. The trace starts with the power sequence. The modem, PPP and link exits take no broker step. Every run has the session shape: one disconnect, at the end, exactly when the publish loop was reached; messages 1 to count published in order; 10 polls on a CONNACK timeout. |
| UdpEcho.SendReport | cellular_test/src/main.c:114-142 | A send is reported as failed exactly when `sendto` returned a negative value, and then with the classified errno. A success reports the byte count returned. |
| UdpEcho.Received | cellular_test/src/main.c:144-153 | The 32-byte buffer a round hands to the log holds the received bytes, then zeroes. |
| UdpEcho.Fill | cellular_test/src/main.c:146 | `recvfrom` overwrites the head of the buffer with the received bytes and leaves the rest as it was. |
| UdpEcho.Terminate | cellular_test/src/main.c:152 | An in-bounds write stores a zero at its index and touches nothing else. |
| UdpEcho.RoundBuffer | cellular_test/src/main.c:144-152 | Whatever the 32-byte buffer held before, the zeroing, receive and terminator leave exactly the bytes this round received, followed by zeroes. |
| UdpEcho.TerminatorInBounds | cellular_test/src/main.c:146-152 | The terminator index is in bounds exactly when a datagram shorter than 32 bytes arrived. A failed receive gives index -1, and a full buffer gives index 32. |
| UdpEcho.FullBufferUnterminated | cellular_test/src/main.c:144-153 | A datagram of 32 bytes or more with no zero among its first 32 bytes gets an out-of-bounds terminator. The buffer handed to the `%s` log then holds no zero byte at all. |
| UdpEcho.TerminatorRedundant | cellular_test/src/main.c:144-152 | An in-bounds terminator lands on a byte the zeroing already cleared. |
| UdpEcho.EchoRound | cellular_test/src/main.c:112-154 | Each round sends once and receives once on the socket as it found it, whatever the send outcome. It closes exactly when the receive failed, makes one terminator write at the `recvfrom` result, reports its send, and sleeps 2000 ms. The socket stays open only if the receive succeeded. |
| UdpEcho.RecvFailures | cellular_test/src/main.c:147-150 | The number of failed receives among the first k rounds is at most k. It is zero exactly when every one of them got a datagram. |
| UdpEcho.ClosesOf | cellular_test/src/main.c:147-148 | There is one close per failed receive. Only the first close finds the socket open. |
| UdpEcho.EchoRounds | cellular_test/src/main.c:109-155 | Exactly five rounds run, with no early exit. The socket is open after the loop exactly when no receive failed. The buffer round k hands to the log holds exactly the bytes round k received, then zeroes. |
| UdpEcho.EchoSends | cellular_test/src/main.c:109-150 | n rounds make exactly n sends. The k-th is on a descriptor still open exactly when none of the first k receives failed. |
| UdpEcho.EchoRecvs | cellular_test/src/main.c:109-150 | n rounds make exactly n receives. The k-th is on a descriptor still open exactly when none of the first k receives failed. |
| UdpEcho.EchoTerminators | cellular_test/src/main.c:146-152 | n rounds make exactly n terminator writes. The k-th is at the k-th `recvfrom` result, and it is in bounds exactly when that result indexes the buffer. |
| UdpEcho.EchoReports | cellular_test/src/main.c:114-142 | n rounds log exactly n send reports. The k-th reports the k-th `sendto` answer. |
| UdpEcho.EchoCloses | cellular_test/src/main.c:147-150 | The closes in n rounds are one per failed receive. Only the first finds the socket open. |
| UdpEcho.EchoSleeps | cellular_test/src/main.c:153-154 | n rounds sleep 2000·n ms in total. |
| CellularApp.StartupExitCases | cellular_test/src/main.c:55-104 | Each early exit happens exactly when its own check fails after the earlier ones passed: modem not ready, no PPP interface, link down after the wait, socket failure. A missing modem never causes an exit. |
| CellularApp.ModemSteps | cellular_test/src/main.c:55-65 | A missing modem is logged and the resume is still requested, on the missing device. |
| CellularApp.BringUp | cellular_test/src/main.c:55-107 | The start-up exit is the one the decision table gives. It succeeds exactly when the table says idle. It takes no socket, close or terminator step, and keeps the missing-modem log and resume. |
| CellularApp.NetworkStage | cellular_test/src/main.c:74-107 | Once the modem and interface checks passed, the exit is link-down, socket failure or success, as the table gives. No echo step is taken. |
| CellularApp.EchoPhase | cellular_test/src/main.c:109-157 | The rounds and the close after them give one send, receive, terminator write and report per round. The closes are those of the failed receives, then the final close, which finds the socket open only if no receive failed. |
| CellularApp.RoundsThenClose | cellular_test/src/main.c:109-157 | Appending the final close to n rounds keeps their sends, receives, terminators and reports. It adds exactly one close, which finds the socket open only if no receive failed. |
| CellularApp.RunCellular | cellular_test/src/main.c:50-165 | The exit is the one the decision table gives. Every exit but the idle loop returns -1. The trace starts with the power sequence. A missing modem is logged and resumed. An early exit takes no socket step. Reaching the idle loop means the full five-round shape with the final close. |
| CellularApp.DoubleClose | cellular_test/src/main.c:147-157 | The program makes one close per failed receive plus the final one. With no failure the only close is on an open socket. A close of an already closed socket happens exactly when some receive failed. |
| CellularApp.UseAfterClose | cellular_test/src/main.c:109-150 | After a receive fails in round k, every later round sends and receives on the closed descriptor. |
| CellularApp.OutOfBoundsWrite | cellular_test/src/main.c:113-152 | Round k's terminator write falls outside the buffer exactly when its receive failed (index -1) or filled the 32 bytes (index 32). |

## Behaviour kept as written

Some behaviour of the code is easy to misread. The model follows the code in each case:

- **Missing modem.** The cellular program only logs a missing modem device (cellular_test/src/main.c:55-56). It then calls the resume action on it anyway (cellular_test/src/main.c:65). That call passes a NULL device to `pm_device_action_run`. The model assumes the call returns normally: the trace goes on after the resume step.
- **Disconnect timing.** The MQTT loop tests `connected` only at the head of a round (mqtt_test/src/main.c:249). A DISCONNECT delivered by that round's `mqtt_input` still lets the round's keep-alive and publish run.
- **Use after close.** A failed receive closes the socket (cellular_test/src/main.c:147-150), but later rounds still send and receive on the closed descriptor. The socket is closed again after the loop.
- **Link-wait success.** Success is decided by a separate `net_if_is_up` query after the loop (mqtt_test/src/main.c:198). That query may answer differently from the one that ended the loop.
- **Return code after start-up.** The MQTT `main` returns 0 for resolve and connect failures, as it does for every exit after start-up (mqtt_test/src/main.c:206-287).

## Left out

- The Zephyr drivers, power management, sockets, DNS and MQTT library are not modelled. They are reduced to the answers they return; no protocol or wire encoding is modelled.
- `k_sleep` is recorded as a sleep step with its duration. There is no clock.
- `atomic_t` is a plain field, because the callback runs synchronously inside `mqtt_input`.
- MQTT events are delivered only through `mqtt_input` answers. Events the library may raise from inside `mqtt_live`, `mqtt_publish` or `mqtt_disconnect`, such as a DISCONNECT on a transport failure, are not modelled. The library is not part of this model.
- Message ids come from `sys_rand32_get` (mqtt_test/src/main.c:162). They are unspecified values, so a publish is recorded by its payload only.
- Topic and QoS 0 flags are constants in `data_publish` (mqtt_test/src/main.c:152-167), so they are not modelled.
- `client_init` (mqtt_test/src/main.c:105-125) only sets fields and always returns 0. Its error exit (mqtt_test/src/main.c:208-211) cannot be taken, so it is not an exit of the model.
- `broker_init` address plumbing (mqtt_test/src/main.c:142-147) is left out. Only its success or failure is modelled. The `-ECHILD` it returns (mqtt_test/src/main.c:139) is only tested for being nonzero, so its value is not modelled.
- The net_mgmt callback (cellular_test/src/main.c:76-78) is registered with no handler and mask 0, so it does nothing.
- Log wording is not modelled. Only log lines whose presence a property mentions appear as notes.
- The final idle loop (cellular_test/src/main.c:160-162) is the outcome `Idles`. It is not an iteration.
- The `recvfrom` address-length argument (cellular_test/src/main.c:146) is not modelled, and `addr` is taken as unchanged.
- The sent message text, peer address and port are constants. A send step records the descriptor and whether it was open, not the bytes.
- The results of `mqtt_disconnect`, `mqtt_publish`, `net_if_up` and the resume action are ignored or only logged by the code. They are not modelled.
- `poll` revents is a single POLLIN flag chosen by the environment. The publish loop tests it even when `poll` returned 0, as the code does (mqtt_test/src/main.c:256).
- The round counter `i` is a `uint32_t`, but it never exceeds 5, so its wrap-around is never reached. `Payload.MessageFits` still covers every 32-bit value.
- The packet log (cellular_test/src/main.c:153) prints the buffer with `%s`, which stops at the first zero byte. The printed text is not modelled; the model states only the 32-byte buffer handed to the log. When that buffer holds no zero, the log reads past the array, and what it prints then is not modelled.
- What `pm_device_action_run` does with a NULL device (cellular_test/src/main.c:65) is not modelled. The model assumes the call returns normally.
- UdpEcho.Terminate: an out-of-bounds write leaves the modelled buffer unchanged, because memory outside the 32-byte array is not modelled. The write is recorded in the trace with its index and `inBounds == false` instead.
