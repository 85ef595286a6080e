/**
  The observable steps of the two bring-up programs, recorded in the order they
  happen, and the measures the properties are stated in.
 */
module Trace {
  import opened Errno
  import opened MqttEvents

  /** Log lines whose presence matters to the behaviour (their wording does not). */
  datatype Note =
    | LdoNotReady
    | LdoSwitchingOn
    | LdoSwitchingOff
    | LdoSwitchOnFailed
    | ModemMissing
    | WaitingForPpp(secondsLeft: int)
    | SendFailed(reason: SendFailure)
    | SendSucceeded(bytes: int)
    | RecvFailed
    | PacketLogged

  datatype Action =
    | LdoOff                                  // `led_off` on the modem's LDO rail
    | LdoOn                                   // `led_on` on the modem's LDO rail
    | Sleep(ms: nat)
    | Log(note: Note)
    | ModemResume(nullDevice: bool)           // the power-management resume action
    | PppUp                                   // `net_if_up` on the PPP interface
    | ResolveBroker
    | MqttConnect
    | Poll(fd: int, timeoutMs: nat)
    | Input(events: seq<Event>)               // `mqtt_input`, with the events it delivered
    | Live                                    // `mqtt_live`
    | Publish(payload: string)
    | MqttDisconnect
    | OpenSocket
    | Send(fd: int, onOpen: bool)             // `sendto`, and whether the descriptor was still open
    | Recv(fd: int, onOpen: bool)             // `recvfrom`, likewise
    | Close(fd: int, wasOpen: bool)
    | TerminatorWrite(index: int, inBounds: bool)

  /** Total time slept. */
  function SleptMs(t: seq<Action>): nat
    decreases |t|
  {
    if t == [] then 0 else (if t[0].Sleep? then t[0].ms else 0) + SleptMs(t[1..])
  }

  /** The payloads published, in order. */
  function Published(t: seq<Action>): seq<string>
    decreases |t|
  {
    if t == [] then [] else (if t[0].Publish? then [t[0].payload] else []) + Published(t[1..])
  }

  /** The countdown values logged while waiting for the PPP link, in order. */
  function WaitLogs(t: seq<Action>): seq<int>
    decreases |t|
  {
    if t == [] then []
    else (if t[0].Log? && t[0].note.WaitingForPpp? then [t[0].note.secondsLeft] else [])
         + WaitLogs(t[1..])
  }

  /** The actions of `t` that `keep` selects, in order. */
  function Select(t: seq<Action>, keep: Action -> bool): (s: seq<Action>)
    ensures |s| <= |t|
    decreases |t|
  {
    if t == [] then [] else (if keep(t[0]) then [t[0]] else []) + Select(t[1..], keep)
  }

  predicate IsPoll(a: Action) { a.Poll? }
  predicate IsSend(a: Action) { a.Send? }
  predicate IsRecv(a: Action) { a.Recv? }

  /** Every measure above distributes over concatenation. */
  lemma Split(a: seq<Action>, b: seq<Action>)
    ensures SleptMs(a + b) == SleptMs(a) + SleptMs(b)
    ensures Published(a + b) == Published(a) + Published(b)
    ensures WaitLogs(a + b) == WaitLogs(a) + WaitLogs(b)
  {
    SplitSlept(a, b);
    SplitPublished(a, b);
    SplitWaitLogs(a, b);
  }

  lemma {:induction false} SplitSlept(a: seq<Action>, b: seq<Action>)
    ensures SleptMs(a + b) == SleptMs(a) + SleptMs(b)
    decreases |a|
  {
    if a == [] {
      assert a + b == b;
    } else {
      assert (a + b)[0] == a[0] && (a + b)[1..] == a[1..] + b;
      SplitSlept(a[1..], b);
    }
  }

  lemma {:induction false} SplitPublished(a: seq<Action>, b: seq<Action>)
    ensures Published(a + b) == Published(a) + Published(b)
    decreases |a|
  {
    if a == [] {
      assert a + b == b;
    } else {
      assert (a + b)[0] == a[0] && (a + b)[1..] == a[1..] + b;
      SplitPublished(a[1..], b);
      var head := if a[0].Publish? then [a[0].payload] else [];
      assert Published(a + b) == head + Published(a[1..] + b);
      assert Published(a) == head + Published(a[1..]);
    }
  }

  lemma {:induction false} SplitWaitLogs(a: seq<Action>, b: seq<Action>)
    ensures WaitLogs(a + b) == WaitLogs(a) + WaitLogs(b)
    decreases |a|
  {
    if a == [] {
      assert a + b == b;
    } else {
      assert (a + b)[0] == a[0] && (a + b)[1..] == a[1..] + b;
      SplitWaitLogs(a[1..], b);
      var head := if a[0].Log? && a[0].note.WaitingForPpp? then [a[0].note.secondsLeft] else [];
      assert WaitLogs(a + b) == head + WaitLogs(a[1..] + b);
      assert WaitLogs(a) == head + WaitLogs(a[1..]);
    }
  }

  /** Selection distributes over concatenation. */
  lemma {:induction false} SelectSplit(a: seq<Action>, b: seq<Action>, keep: Action -> bool)
    ensures Select(a + b, keep) == Select(a, keep) + Select(b, keep)
    decreases |a|
  {
    if a == [] {
      assert a + b == b;
    } else {
      assert (a + b)[0] == a[0] && (a + b)[1..] == a[1..] + b;
      SelectSplit(a[1..], b, keep);
      var head := if keep(a[0]) then [a[0]] else [];
      assert Select(a + b, keep) == head + Select(a[1..] + b, keep);
      assert Select(a, keep) == head + Select(a[1..], keep);
    }
  }

  /** Appending actions none of which is kept leaves the selection as it is. */
  lemma SelectAppendNone(t: seq<Action>, u: seq<Action>, keep: Action -> bool)
    requires forall a :: a in u ==> !keep(a)
    ensures Select(t + u, keep) == Select(t, keep)
  {
    SelectSplit(t, u, keep);
    SelectNone(u, keep);
    assert Select(t, keep) + [] == Select(t, keep);
  }

  /** Prefixing actions none of which is kept leaves the selection as it is. */
  lemma SelectPrependNone(u: seq<Action>, t: seq<Action>, keep: Action -> bool)
    requires forall a :: a in u ==> !keep(a)
    ensures Select(u + t, keep) == Select(t, keep)
  {
    SelectSplit(u, t, keep);
    SelectNone(u, keep);
    assert [] + Select(t, keep) == Select(t, keep);
  }

  /** `a` is the prefix of `a + b`, and every step of either part is a step of the whole. */
  lemma Prefix(a: seq<Action>, b: seq<Action>)
    ensures |a| <= |a + b| && (a + b)[..|a|] == a
    ensures forall x :: x in a ==> x in a + b
    ensures forall x :: x in b ==> x in a + b
  {
  }

  /** `a` is the prefix of `a + b + c`. */
  lemma Prefix3(a: seq<Action>, b: seq<Action>, c: seq<Action>)
    ensures |a| <= |a + b + c| && (a + b + c)[..|a|] == a
  {
    assert a + b + c == a + (b + c);
    Prefix(a, b + c);
  }

  /** A trace without sleeps takes no time. */
  lemma {:induction false} NoSleep(t: seq<Action>)
    requires forall a :: a in t ==> !a.Sleep?
    ensures SleptMs(t) == 0
    decreases |t|
  {
    if t != [] {
      assert t[0] in t;
      NoSleep(t[1..]);
    }
  }

  /** A trace without publishes publishes nothing. */
  lemma {:induction false} NoPublish(t: seq<Action>)
    requires forall a :: a in t ==> !a.Publish?
    ensures Published(t) == []
    decreases |t|
  {
    if t != [] {
      assert t[0] in t;
      NoPublish(t[1..]);
    }
  }

  /** Selecting from a trace none of whose actions is kept gives nothing. */
  lemma {:induction false} SelectNone(t: seq<Action>, keep: Action -> bool)
    requires forall a :: a in t ==> !keep(a)
    ensures Select(t, keep) == []
    decreases |t|
  {
    if t != [] {
      assert t[0] in t;
      SelectNone(t[1..], keep);
    }
  }

  /** `t` ends with `a`. */
  predicate EndsWith(t: seq<Action>, a: Action) {
    |t| >= 1 && t[|t| - 1] == a
  }

  /** Actions that neither publish, poll nor disconnect. */
  predicate Quiet(a: Action) {
    !a.Publish? && !a.Poll? && !a.MqttDisconnect?
  }

  /** Prefixing actions that neither publish nor disconnect changes what is published and how the trace ends. */
  lemma SilentPrefix(pre: seq<Action>, rest: seq<Action>)
    requires forall a :: a in pre ==> !a.Publish? && !a.MqttDisconnect?
    ensures Published(pre + rest) == Published(rest)
    ensures multiset(pre + rest)[MqttDisconnect] == multiset(rest)[MqttDisconnect]
    ensures EndsWith(rest, MqttDisconnect) ==> EndsWith(pre + rest, MqttDisconnect)
  {
    Split(pre, rest);
    NoPublish(pre);
    assert MqttDisconnect !in pre;
    if EndsWith(rest, MqttDisconnect) {
      assert (pre + rest)[|pre + rest| - 1] == rest[|rest| - 1];
    }
  }

  /** Prefixing quiet actions changes none of the measures the session is judged by. */
  lemma QuietPrefix(pre: seq<Action>, rest: seq<Action>)
    requires forall a :: a in pre ==> Quiet(a)
    ensures Published(pre) == [] && Select(pre, IsPoll) == [] && MqttDisconnect !in pre
    ensures Published(pre + rest) == Published(rest)
    ensures |Select(pre + rest, IsPoll)| == |Select(rest, IsPoll)|
    ensures multiset(pre + rest)[MqttDisconnect] == multiset(rest)[MqttDisconnect]
    ensures EndsWith(rest, MqttDisconnect) ==> EndsWith(pre + rest, MqttDisconnect)
  {
    SilentPrefix(pre, rest);
    NoPublish(pre);
    SelectNone(pre, IsPoll);
    SelectSplit(pre, rest, IsPoll);
  }
}
