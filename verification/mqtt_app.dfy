/**
  The MQTT publisher program: power sequence, modem and PPP bring-up, broker
  resolution and connect, a bounded wait for the CONNACK, at most five publish
  rounds, and one disconnect after the rounds.

  The environment's answers are oracles indexed by call number: the k-th
  `poll`, the k-th `mqtt_input` (with the events it delivered to the callback
  before returning) and the k-th `mqtt_live`. A `Cursor` counts how many of
  each the program has consumed.
 */
module MqttApp {
  import opened Errno
  import opened MqttEvents
  import opened Trace
  import Power
  import LinkWait
  import Payload

  const PubMsgCount := 5
  const ConnAckSlices := 10
  const ConnAckPollMs := 1000
  const RoundPollMs := 100
  const RoundSleepMs := 2000

  datatype PollAnswer = PollAnswer(ret: int, pollin: bool)
  datatype InputAnswer = InputAnswer(events: seq<Event>, err: int)

  datatype Env = Env(
    ldo: Power.Ldo,
    modemReady: bool,
    hasPpp: bool,
    linkUp: nat -> bool,
    resolveErr: int,
    connectErr: int,
    brokerFd: int,
    poll: nat -> PollAnswer,
    input: nat -> InputAnswer,
    live: nat -> int)

  datatype Cursor = Cursor(polls: nat, inputs: nat, lives: nat)

  /** The client state after the callback has seen every event the `Input` steps of `t` delivered. */
  function Replay(s: ClientState, t: seq<Action>): ClientState
    decreases |t|
  {
    if t == [] then s
    else Replay(if t[0].Input? then OnEvents(s, t[0].events) else s, t[1..])
  }

  lemma {:induction false} ReplaySplit(s: ClientState, a: seq<Action>, b: seq<Action>)
    ensures Replay(s, a + b) == Replay(Replay(s, a), b)
    decreases |a|
  {
    if a == [] {
      assert a + b == b;
    } else {
      assert (a + b)[1..] == a[1..] + b;
      ReplaySplit(if a[0].Input? then OnEvents(s, a[0].events) else s, a[1..], b);
    }
  }

  /** The payloads of rounds 1 to n, in order. */
  function Messages(n: nat): (ms: seq<string>)
    ensures |ms| == n
    ensures forall j :: 0 <= j < n ==> ms[j] == Payload.Message(j + 1)
  {
    if n == 0 then [] else Messages(n - 1) + [Payload.Message(n)]
  }

  /** `mqtt_live` results the publish loop carries on after: success, or "would block". */
  predicate LiveTolerable(code: int) {
    code == 0 || code == -EAGAIN
  }

  // ---------------------------------------------------------------------------
  // Waiting for the CONNACK

  datatype SliceEnd = Continue | PollError | InputError

  datatype Slice = Slice(st: ClientState, cur: Cursor, steps: seq<Action>, end: SliceEnd)

  /**
    One pass of the CONNACK wait: poll for up to a second; read input only when
    the poll reported a ready descriptor with data to read; a negative poll
    result or a failed input ends the wait.
   */
  function AckSlice(env: Env, st: ClientState, cur: Cursor): (r: Slice)
    ensures r.cur.polls == cur.polls + 1 && r.cur.lives == cur.lives
    ensures var p := env.poll(cur.polls);
            r.cur.inputs == if p.ret > 0 && p.pollin then cur.inputs + 1 else cur.inputs
    ensures r.end == PollError <==> env.poll(cur.polls).ret < 0
    ensures r.end == InputError <==>
              env.poll(cur.polls).ret > 0 && env.poll(cur.polls).pollin && env.input(cur.inputs).err != 0
    ensures r.st == Replay(st, r.steps)
    ensures Select(r.steps, IsPoll) == [Poll(st.pollFd, ConnAckPollMs)]
    ensures forall a :: a in r.steps ==> a.Poll? || a.Input?
  {
    var p := env.poll(cur.polls);
    var c := cur.(polls := cur.polls + 1);
    if p.ret > 0 && p.pollin then
      var a := env.input(cur.inputs);
      var steps := [Poll(st.pollFd, ConnAckPollMs), Input(a.events)];
      assert Replay(st, steps) == Replay(OnEvents(st, a.events), steps[2..]);
      assert Select(steps, IsPoll) == [Poll(st.pollFd, ConnAckPollMs)] + Select(steps[1..], IsPoll);
      Slice(OnEvents(st, a.events), c.(inputs := c.inputs + 1), steps, if a.err != 0 then InputError else Continue)
    else
      Slice(st, c, [Poll(st.pollFd, ConnAckPollMs)], if p.ret < 0 then PollError else Continue)
  }

  datatype AckOutcome = Acked | AckPollFailed | AckInputFailed | AckTimedOut

  datatype AckWait = AckWait(outcome: AckOutcome, st: ClientState, cur: Cursor, slices: nat, trace: seq<Action>)

  /**
    Where `k` back-to-back slices leave the client, the cursor and the trace,
    with the end of the k-th slice; no slice at all ends as `Continue`.
   */
  function AckAfter(env: Env, st0: ClientState, cur0: Cursor, k: nat): Slice {
    if k == 0 then Slice(st0, cur0, [], Continue)
    else
      var p := AckAfter(env, st0, cur0, k - 1);
      var s := AckSlice(env, p.st, p.cur);
      Slice(s.st, s.cur, p.steps + s.steps, s.end)
  }

  /** After `k` slices the wait is over: a slice failed, the flag is up, or the ten slices are spent. */
  predicate AckStops(env: Env, st0: ClientState, cur0: Cursor, k: nat) {
    var s := AckAfter(env, st0, cur0, k);
    k >= ConnAckSlices || s.end != Continue || s.st.connected
  }

  /** The number of slices the wait takes: the first `k` from `j` on at which it stops. */
  function AckStop(env: Env, st0: ClientState, cur0: Cursor, j: nat): (k: nat)
    requires j <= ConnAckSlices
    ensures j <= k <= ConnAckSlices
    ensures AckStops(env, st0, cur0, k)
    decreases ConnAckSlices - j
  {
    if AckStops(env, st0, cur0, j) then j else AckStop(env, st0, cur0, j + 1)
  }

  /** No slice between `j` and the stop stops the wait. */
  lemma {:induction false} AckStopFirst(env: Env, st0: ClientState, cur0: Cursor, j: nat, i: nat)
    requires j <= ConnAckSlices
    requires j <= i < AckStop(env, st0, cur0, j)
    ensures !AckStops(env, st0, cur0, i)
    decreases ConnAckSlices - j
  {
    if i > j {
      AckStopFirst(env, st0, cur0, j + 1, i);
    }
  }

  /** How the wait ends once it stops after slice `s`. */
  function AckVerdict(s: Slice): AckOutcome {
    match s.end
    case PollError => AckPollFailed
    case InputError => AckInputFailed
    case Continue => if s.st.connected then Acked else AckTimedOut
  }

  /** Any `k` that stops the wait with no earlier stop is the wait's own slice count. */
  lemma {:induction false} AckStopAt(env: Env, st0: ClientState, cur0: Cursor, j: nat, k: nat)
    requires j <= k <= ConnAckSlices
    requires AckStops(env, st0, cur0, k)
    requires forall i :: j <= i < k ==> !AckStops(env, st0, cur0, i)
    ensures AckStop(env, st0, cur0, j) == k
    decreases k - j
  {
    if j < k {
      AckStopAt(env, st0, cur0, j + 1, k);
    }
  }

  /** What any number of back-to-back slices consume and record. */
  lemma {:induction false} AckAfterFacts(env: Env, st0: ClientState, cur0: Cursor, k: nat, s: Slice)
    requires s == AckAfter(env, st0, cur0, k)
    ensures && s.cur.polls == cur0.polls + k && s.cur.lives == cur0.lives
            && |Select(s.steps, IsPoll)| == k
            && (forall a :: a in s.steps ==> a.Poll? || a.Input?)
            && s.st == Replay(st0, s.steps)
            && (s.end == PollError ==> k >= 1 && env.poll(s.cur.polls - 1).ret < 0)
            && (s.end == InputError ==> s.cur.inputs >= 1 && env.input(s.cur.inputs - 1).err != 0)
  {
    if k > 0 {
      var p := AckAfter(env, st0, cur0, k - 1);
      var sl := AckSlice(env, p.st, p.cur);
      AckAfterFacts(env, st0, cur0, k - 1, p);
      SelectSplit(p.steps, sl.steps, IsPoll);
      ReplaySplit(st0, p.steps, sl.steps);
    }
  }

  /**
    The loop of the CONNACK wait, `while (timeout-- > 0 && !connected)` over
    ten one-second slices, leaving early on a failed slice. Every slice but
    the last one continued with the flag still down; the last one failed,
    raised the flag, or was the tenth.
   */
  method AckLoop(env: Env, st0: ClientState, cur0: Cursor) returns (last: Slice, slices: nat)
    ensures slices <= ConnAckSlices
    ensures AckStops(env, st0, cur0, slices)
    ensures forall j :: 0 <= j < slices ==> !AckStops(env, st0, cur0, j)
    ensures last == AckAfter(env, st0, cur0, slices)
    ensures st0.connected ==> slices == 0
  {
    var timeout: int := ConnAckSlices;
    last := Slice(st0, cur0, [], Continue);
    slices := 0;
    while true
      invariant slices <= ConnAckSlices
      invariant timeout == ConnAckSlices - slices
      invariant last == AckAfter(env, st0, cur0, slices)
      invariant last.end == Continue
      invariant forall j :: 0 <= j < slices ==> !AckStops(env, st0, cur0, j)
      invariant st0.connected ==> slices == 0
      decreases timeout
    {
      var before := timeout;
      timeout := timeout - 1;
      if !(before > 0 && !last.st.connected) {
        break;
      }
      assert !AckStops(env, st0, cur0, slices);
      var s := AckSlice(env, last.st, last.cur);
      last := Slice(s.st, s.cur, last.steps + s.steps, s.end);
      slices := slices + 1;
      if s.end != Continue {
        return;
      }
    }
  }

  /**
    The CONNACK wait: the loop, then a separate test of the flag. A failed
    slice returns at once; otherwise the flag decides between the CONNACK
    having arrived and the wait having timed out.
   */
  method AwaitConnAck(env: Env, st0: ClientState, cur0: Cursor) returns (r: AckWait)
    ensures r.slices <= ConnAckSlices
    ensures forall j :: 0 <= j < r.slices ==> !AckStops(env, st0, cur0, j)
    ensures AckStops(env, st0, cur0, r.slices)
    ensures r.outcome == AckVerdict(AckAfter(env, st0, cur0, r.slices))
    ensures r.st == AckAfter(env, st0, cur0, r.slices).st && r.cur == AckAfter(env, st0, cur0, r.slices).cur
    ensures r.trace == AckAfter(env, st0, cur0, r.slices).steps
    ensures r.cur.polls == cur0.polls + r.slices && r.cur.lives == cur0.lives
    ensures |Select(r.trace, IsPoll)| == r.slices
    ensures forall a :: a in r.trace ==> a.Poll? || a.Input?
    ensures r.st == Replay(st0, r.trace)
    ensures r.outcome == Acked ==> r.st.connected
    ensures r.outcome == AckTimedOut ==> !r.st.connected && r.slices == ConnAckSlices
    ensures r.outcome == AckPollFailed ==> r.slices >= 1 && env.poll(r.cur.polls - 1).ret < 0
    ensures r.outcome == AckInputFailed ==> r.cur.inputs >= 1 && env.input(r.cur.inputs - 1).err != 0
    ensures st0.connected ==> r.outcome == Acked && r.slices == 0
  {
    var last, slices := AckLoop(env, st0, cur0);
    AckAfterFacts(env, st0, cur0, slices, last);
    var outcome :=
      if last.end == PollError then AckPollFailed
      else if last.end == InputError then AckInputFailed
      else if !last.st.connected then AckTimedOut
      else Acked;
    r := AckWait(outcome, last.st, last.cur, slices, last.steps);
  }

  // ---------------------------------------------------------------------------
  // The publish rounds

  datatype RoundEnd = Completed | PollBroke | InputBroke | LiveBroke(code: int)

  datatype Round = Round(st: ClientState, cur: Cursor, steps: seq<Action>, end: RoundEnd)

  /** Where a round leaves the client and the cursor, and how it ends, without the steps it records. */
  datatype Tick = Tick(st: ClientState, cur: Cursor, end: RoundEnd)

  /**
    The control of one publish round: a poll (a negative result breaks), input
    when the poll reported data (a failure breaks, after the callback has seen
    the events delivered), then a keep-alive tick (anything but success or
    "would block" breaks).
   */
  function RoundTick(env: Env, st: ClientState, cur: Cursor): Tick {
    var p := env.poll(cur.polls);
    var c1 := cur.(polls := cur.polls + 1);
    if p.ret < 0 then Tick(st, c1, PollBroke)
    else
      var a := env.input(cur.inputs);
      var st2 := if p.pollin then OnEvents(st, a.events) else st;
      var c2 := if p.pollin then c1.(inputs := c1.inputs + 1) else c1;
      var code := env.live(cur.lives);
      if p.pollin && a.err != 0 then Tick(st2, c2, InputBroke)
      else Tick(st2, c2.(lives := c2.lives + 1), if LiveTolerable(code) then Completed else LiveBroke(code))
  }

  /**
    One publish round after `n` completed ones: the control of `RoundTick`,
    then the publish of message n + 1 and a 2 s sleep. `connected` is not
    looked at inside the round, and the publish's own result is not looked at
    at all.
   */
  function PublishRound(env: Env, st: ClientState, cur: Cursor, n: nat): (r: Round)
    ensures Tick(r.st, r.cur, r.end) == RoundTick(env, st, cur)
    ensures r.end == PollBroke <==> env.poll(cur.polls).ret < 0
    ensures r.end == InputBroke <==>
              env.poll(cur.polls).ret >= 0 && env.poll(cur.polls).pollin && env.input(cur.inputs).err != 0
    ensures r.end == Completed <==>
              env.poll(cur.polls).ret >= 0
              && (env.poll(cur.polls).pollin ==> env.input(cur.inputs).err == 0)
              && LiveTolerable(env.live(cur.lives))
    ensures r.end.LiveBroke? ==> r.end.code == env.live(cur.lives)
    ensures Published(r.steps) == if r.end == Completed then [Payload.Message(n + 1)] else []
    ensures r.st == Replay(st, r.steps)
    ensures MqttDisconnect !in r.steps
    ensures st.connected && (env.poll(cur.polls).pollin ==> NoDisconnect(env.input(cur.inputs).events))
            ==> r.st.connected
  {
    var t := RoundTick(env, st, cur);
    var p := env.poll(cur.polls);
    var a := env.input(cur.inputs);
    var message := Payload.Message(n + 1);
    var polled := [Poll(st.pollFd, RoundPollMs)];
    var read := polled + (if p.pollin then [Input(a.events)] else []);
    var ticked := read + [Live];
    var sent := ticked + [Publish(message), Sleep(RoundSleepMs)];
    RoundSteps(st, st.pollFd, p.pollin, a.events, message);
    var steps := match t.end
      case PollBroke => polled
      case InputBroke => read
      case LiveBroke(_) => ticked
      case Completed => sent;
    Round(t.st, t.cur, steps, t.end)
  }

  predicate NoDisconnect(es: seq<Event>) {
    forall k :: 0 <= k < |es| ==> !es[k].Disconnect?
  }

  /** What the successive prefixes of a round's steps publish and do to the client state. */
  lemma RoundSteps(st: ClientState, fd: int, pollin: bool, es: seq<Event>, message: string)
    ensures var polled := [Poll(fd, RoundPollMs)];
            var read := polled + (if pollin then [Input(es)] else []);
            var ticked := read + [Live];
            var sent := ticked + [Publish(message), Sleep(RoundSleepMs)];
            var st2 := if pollin then OnEvents(st, es) else st;
            && Published(polled) == [] && Replay(st, polled) == st
            && Published(read) == [] && Replay(st, read) == st2
            && Published(ticked) == [] && Replay(st, ticked) == st2
            && Published(sent) == [message] && Replay(st, sent) == st2
            && MqttDisconnect !in sent
            && (st.connected && (pollin ==> NoDisconnect(es)) ==> st2.connected)
  {
    var polled := [Poll(fd, RoundPollMs)];
    var opt := if pollin then [Input(es)] else [];
    var read := polled + opt;
    var ticked := read + [Live];
    var tail := [Publish(message), Sleep(RoundSleepMs)];
    var st2 := if pollin then OnEvents(st, es) else st;
    assert Replay(st, polled) == st;
    assert Replay(st, opt) == st2;
    assert Replay(st2, [Live]) == st2;
    assert Replay(st2, tail) == st2 by {
      assert tail[1..] == [Sleep(RoundSleepMs)];
      assert Replay(st2, tail[1..]) == st2;
      assert Replay(st2, tail) == Replay(st2, tail[1..]);
    }
    assert Published(tail) == [message] by {
      assert tail[1..] == [Sleep(RoundSleepMs)];
      assert Published(tail[1..]) == [];
      assert Published(tail) == [message] + Published(tail[1..]);
    }
    Split(polled, opt);
    Split(read, [Live]);
    Split(ticked, tail);
    ReplaySplit(st, polled, opt);
    ReplaySplit(st, read, [Live]);
    ReplaySplit(st, ticked, tail);
    if pollin && st.connected && NoDisconnect(es) {
      StaysConnected(st, es);
    }
  }

  /** Every answer the program consumed below `cur` was healthy: no failure, no DISCONNECT, a tolerable keep-alive. */
  predicate HealthyBelow(env: Env, cur: Cursor) {
    && (forall k :: 0 <= k < cur.polls ==> env.poll(k).ret >= 0)
    && (forall k :: 0 <= k < cur.inputs ==> env.input(k).err == 0 && NoDisconnect(env.input(k).events))
    && (forall k :: 0 <= k < cur.lives ==> LiveTolerable(env.live(k)))
  }

  datatype LoopExit = CountReached | ConnectionLost | PollFailed | InputFailed | LiveFailed(code: int)

  datatype Session = Session(exit: LoopExit, count: nat, st: ClientState, cur: Cursor, trace: seq<Action>)

  /** What one round consumes, and how a break names the answer that caused it. */
  lemma TickAnswers(env: Env, st: ClientState, cur: Cursor)
    ensures var t := RoundTick(env, st, cur);
            && t.cur.polls == cur.polls + 1 && cur.inputs <= t.cur.inputs && cur.lives <= t.cur.lives
            && (t.end == PollBroke ==> env.poll(t.cur.polls - 1).ret < 0)
            && (t.end == InputBroke ==> t.cur.inputs >= 1 && env.input(t.cur.inputs - 1).err != 0)
            && (t.end.LiveBroke? ==>
                  t.cur.lives >= 1 && t.end.code == env.live(t.cur.lives - 1) && !LiveTolerable(t.end.code))
  {
  }

  /** A round whose answers were all healthy publishes and leaves the flag up. */
  lemma TickHealthy(env: Env, st: ClientState, cur: Cursor)
    requires st.connected && HealthyBelow(env, RoundTick(env, st, cur).cur)
    ensures RoundTick(env, st, cur).end == Completed && RoundTick(env, st, cur).st.connected
  {
    var p := env.poll(cur.polls);
    var a := env.input(cur.inputs);
    if p.pollin {
      assert cur.inputs < RoundTick(env, st, cur).cur.inputs;
      StaysConnected(st, a.events);
    }
  }

  /** Healthy answers below a cursor are healthy below any smaller one. */
  lemma HealthyShrinks(env: Env, small: Cursor, big: Cursor)
    requires small.polls <= big.polls && small.inputs <= big.inputs && small.lives <= big.lives
    requires HealthyBelow(env, big)
    ensures HealthyBelow(env, small)
  {
  }

  /** Where `k` back-to-back rounds leave the client and the cursor, with the end of the k-th round. */
  function TicksAfter(env: Env, st0: ClientState, cur0: Cursor, k: nat): Tick {
    if k == 0 then Tick(st0, cur0, Completed)
    else
      var p := TicksAfter(env, st0, cur0, k - 1);
      RoundTick(env, p.st, p.cur)
  }

  /**
    The loop ends with `k` rounds completed: its head sees the count reached or
    the flag down, or round `k` itself breaks.
   */
  predicate LoopStops(env: Env, st0: ClientState, cur0: Cursor, k: nat) {
    var p := TicksAfter(env, st0, cur0, k);
    k >= PubMsgCount || !p.st.connected || RoundTick(env, p.st, p.cur).end != Completed
  }

  /** The number of completed rounds: the first `k` from `j` on at which the loop stops. */
  function LoopStop(env: Env, st0: ClientState, cur0: Cursor, j: nat): (k: nat)
    requires j <= PubMsgCount
    ensures j <= k <= PubMsgCount
    ensures LoopStops(env, st0, cur0, k)
    decreases PubMsgCount - j
  {
    if LoopStops(env, st0, cur0, j) then j else LoopStop(env, st0, cur0, j + 1)
  }

  /** From a head that does not stop the loop, the first stop is the one from the next head. */
  lemma LoopStopStep(env: Env, st0: ClientState, cur0: Cursor, j: nat)
    requires j < PubMsgCount && TicksAfter(env, st0, cur0, j).st.connected
    requires TicksAfter(env, st0, cur0, j + 1).end == Completed
    ensures LoopStop(env, st0, cur0, j) == LoopStop(env, st0, cur0, j + 1)
  {
  }

  /** No round between `j` and the stop stops the loop: each completed with the flag up at its head. */
  lemma {:induction false} LoopStopFirst(env: Env, st0: ClientState, cur0: Cursor, j: nat, i: nat)
    requires j <= PubMsgCount
    requires j <= i < LoopStop(env, st0, cur0, j)
    ensures !LoopStops(env, st0, cur0, i)
    ensures TicksAfter(env, st0, cur0, i).st.connected && TicksAfter(env, st0, cur0, i + 1).end == Completed
    decreases i - j
  {
    if j < i {
      LoopStopFirst(env, st0, cur0, j + 1, i);
    }
  }

  /** The loop stops no later than any round count at which it would stop. */
  lemma {:induction false} LoopStopBefore(env: Env, st0: ClientState, cur0: Cursor, j: nat, k: nat)
    requires j <= k <= PubMsgCount
    requires LoopStops(env, st0, cur0, k)
    ensures LoopStop(env, st0, cur0, j) <= k
    decreases k - j
  {
    if j < k && !LoopStops(env, st0, cur0, j) {
      LoopStopBefore(env, st0, cur0, j + 1, k);
    }
  }

  /** Why the loop ends when it stops after `k` completed rounds. */
  function LoopExitAt(env: Env, st0: ClientState, cur0: Cursor, k: nat): LoopExit {
    var p := TicksAfter(env, st0, cur0, k);
    if k >= PubMsgCount then CountReached
    else if !p.st.connected then ConnectionLost
    else match RoundTick(env, p.st, p.cur).end
      case PollBroke => PollFailed
      case InputBroke => InputFailed
      case LiveBroke(code) => LiveFailed(code)
      case Completed => CountReached
  }

  /** One round as the loop sees it: where it leaves the client, and what its steps publish and do. */
  method PlayRound(env: Env, st: ClientState, cur: Cursor, n: nat) returns (tick: Tick, steps: seq<Action>)
    ensures tick == RoundTick(env, st, cur)
    ensures Published(steps) == if tick.end == Completed then [Payload.Message(n + 1)] else []
    ensures tick.st == Replay(st, steps)
    ensures MqttDisconnect !in steps
  {
    var round := PublishRound(env, st, cur, n);
    tick, steps := Tick(round.st, round.cur, round.end), round.steps;
  }

  /**
    The publish loop of mqtt_test/src/main.c:249-275 on its own. The round counter starts at 0 and
    grows by one per completed round; the flag is consulted only at the head
    of a round, and a failing poll, input or keep-alive breaks out. `last` is
    where the loop left the client. When the head stopped it, `last` is
    the tick after `count` rounds; when round `count + 1` broke, it is that
    round's tick.
   */
  method RoundLoop(env: Env, st0: ClientState, cur0: Cursor) returns (count: nat, last: Tick, trace: seq<Action>)
    ensures count <= PubMsgCount
    ensures LoopStop(env, st0, cur0, 0) == LoopStop(env, st0, cur0, count)
    ensures last.end == Completed ==>
              last == TicksAfter(env, st0, cur0, count) && (count == PubMsgCount || !last.st.connected)
    ensures last.end != Completed ==>
              count < PubMsgCount && TicksAfter(env, st0, cur0, count).st.connected
              && last == TicksAfter(env, st0, cur0, count + 1)
    ensures Published(trace) == Messages(count)
    ensures last.st == Replay(st0, trace)
    ensures MqttDisconnect !in trace
    ensures !st0.connected ==> count == 0 && trace == []
  {
    count := 0;
    last := Tick(st0, cur0, Completed);
    trace := [];
    while count < PubMsgCount && last.st.connected
      invariant count <= PubMsgCount
      invariant last == TicksAfter(env, st0, cur0, count)
      invariant LoopStop(env, st0, cur0, 0) == LoopStop(env, st0, cur0, count)
      invariant Published(trace) == Messages(count)
      invariant last.st == Replay(st0, trace)
      invariant MqttDisconnect !in trace
      invariant !st0.connected ==> count == 0 && trace == []
    {
      var tick, steps := PlayRound(env, last.st, last.cur, count);
      assert TicksAfter(env, st0, cur0, count + 1) == tick;
      LoopTraceStep(st0, trace, last.st, steps, tick, count);
      trace := trace + steps;
      last := tick;
      if tick.end != Completed {
        return;
      }
      LoopStopStep(env, st0, cur0, count);
      count := count + 1;
    }
  }

  /** Appending one round's steps to the loop's trace keeps the trace facts of `RoundLoop`. */
  lemma LoopTraceStep(st0: ClientState, trace: seq<Action>, st: ClientState, steps: seq<Action>, tick: Tick, count: nat)
    requires Published(trace) == Messages(count) && st == Replay(st0, trace) && MqttDisconnect !in trace
    requires Published(steps) == (if tick.end == Completed then [Payload.Message(count + 1)] else [])
    requires tick.st == Replay(st, steps) && MqttDisconnect !in steps
    ensures Published(trace + steps) == if tick.end == Completed then Messages(count + 1) else Messages(count)
    ensures tick.st == Replay(st0, trace + steps)
    ensures MqttDisconnect !in trace + steps
  {
    Split(trace, steps);
    ReplaySplit(st0, trace, steps);
    if tick.end != Completed {
      assert Published(trace + steps) == Published(trace) + [];
    }
  }

  /** Rounds whose every answer so far was healthy all published and left the flag up. */
  lemma {:induction false} HealthyTicks(env: Env, st0: ClientState, cur0: Cursor, k: nat)
    requires st0.connected && HealthyBelow(env, TicksAfter(env, st0, cur0, k).cur)
    ensures TicksAfter(env, st0, cur0, k).st.connected
    ensures TicksAfter(env, st0, cur0, k).end == Completed
  {
    if k > 0 {
      var p := TicksAfter(env, st0, cur0, k - 1);
      TickAnswers(env, p.st, p.cur);
      HealthyShrinks(env, p.cur, TicksAfter(env, st0, cur0, k).cur);
      HealthyTicks(env, st0, cur0, k - 1);
      TickHealthy(env, p.st, p.cur);
    }
  }

  /**
    A break names its cause: the last answer consumed of the kind the exit
    names was a failing one (a negative poll, a failing input, a keep-alive
    code other than 0 and -EAGAIN, reported as is).
   */
  predicate BreakNamed(env: Env, exit: LoopExit, cur: Cursor) {
    && (exit == PollFailed ==> cur.polls >= 1 && env.poll(cur.polls - 1).ret < 0)
    && (exit == InputFailed ==> cur.inputs >= 1 && env.input(cur.inputs - 1).err != 0)
    && (exit.LiveFailed? ==> cur.lives >= 1 && exit.code == env.live(cur.lives - 1) && !LiveTolerable(exit.code))
  }

  /** The reason the loop reports for where it left the client. */
  function EndOf(count: nat, last: Tick): LoopExit {
    match last.end
    case PollBroke => PollFailed
    case InputBroke => InputFailed
    case LiveBroke(code) => LiveFailed(code)
    case Completed => if count == PubMsgCount then CountReached else ConnectionLost
  }

  /** How the loop's end relates to the reference iteration and to the answers it consumed. */
  lemma LoopEndFacts(env: Env, st0: ClientState, cur0: Cursor, count: nat, last: Tick)
    requires count <= PubMsgCount
    requires last.end == Completed ==>
               last == TicksAfter(env, st0, cur0, count) && (count == PubMsgCount || !last.st.connected)
    requires last.end != Completed ==>
               count < PubMsgCount && TicksAfter(env, st0, cur0, count).st.connected
               && last == TicksAfter(env, st0, cur0, count + 1)
    ensures LoopStops(env, st0, cur0, count)
    ensures EndOf(count, last) == LoopExitAt(env, st0, cur0, count)
    ensures EndOf(count, last) == ConnectionLost <==>
              count < PubMsgCount && !TicksAfter(env, st0, cur0, count).st.connected
    ensures BreakNamed(env, EndOf(count, last), last.cur)
    ensures st0.connected && HealthyBelow(env, last.cur) ==> EndOf(count, last) == CountReached
  {
    if last.end != Completed {
      var p := TicksAfter(env, st0, cur0, count);
      assert last == RoundTick(env, p.st, p.cur);
      TickAnswers(env, p.st, p.cur);
      if st0.connected && HealthyBelow(env, last.cur) {
        TickHealthy(env, p.st, p.cur);
      }
    } else if st0.connected && HealthyBelow(env, last.cur) {
      HealthyTicks(env, st0, cur0, count);
    }
  }

  /**
    The publish loop (mqtt_test/src/main.c:249-275): at most five rounds, as many as the
    reference iteration completes before it first stops, ending for the
    reason that stop names; a break names the answer that caused it, and a
    run whose answers were all healthy always reaches the count.
   */
  method PublishRounds(env: Env, st0: ClientState, cur0: Cursor) returns (r: Session)
    ensures r.count <= PubMsgCount
    ensures r.count == LoopStop(env, st0, cur0, 0)
    ensures r.exit == LoopExitAt(env, st0, cur0, r.count)
    ensures r.exit == CountReached <==> r.count == PubMsgCount
    ensures r.exit == ConnectionLost <==> r.count < PubMsgCount && !TicksAfter(env, st0, cur0, r.count).st.connected
    ensures BreakNamed(env, r.exit, r.cur)
    ensures Published(r.trace) == Messages(r.count)
    ensures r.st == Replay(st0, r.trace)
    ensures MqttDisconnect !in r.trace
    ensures !st0.connected ==> r.count == 0 && r.trace == []
    ensures st0.connected && HealthyBelow(env, r.cur) ==> r.exit == CountReached
  {
    var count, last, trace := RoundLoop(env, st0, cur0);
    var exit := EndOf(count, last);
    LoopEndFacts(env, st0, cur0, count, last);
    r := Session(exit, count, last.st, last.cur, trace);
  }

  /**
    A round whose input succeeds and whose last connect-deciding event is a
    DISCONNECT is not stopped by it: given a tolerable keep-alive, its publish
    still happens, the flag is down afterwards, and the loop stops at the
    next head.
   */
  lemma DisconnectNoticedNextRound(env: Env, st0: ClientState, cur0: Cursor, j: nat)
    requires TicksAfter(env, st0, cur0, j).st.connected
    requires var c := TicksAfter(env, st0, cur0, j).cur;
             && env.poll(c.polls).ret >= 0 && env.poll(c.polls).pollin
             && env.input(c.inputs).err == 0
             && LastVerdict(env.input(c.inputs).events) == Decides(false)
             && LiveTolerable(env.live(c.lives))
    ensures var p := TicksAfter(env, st0, cur0, j);
            Published(PublishRound(env, p.st, p.cur, j).steps) == [Payload.Message(j + 1)]
    ensures TicksAfter(env, st0, cur0, j + 1).end == Completed
    ensures !TicksAfter(env, st0, cur0, j + 1).st.connected
    ensures LoopStops(env, st0, cur0, j + 1)
  {
    var p := TicksAfter(env, st0, cur0, j);
    ConnectedAfterEvents(p.st, env.input(p.cur.inputs).events);
  }

  /**
    When round `j` published, its input succeeded and the last connect-deciding
    event of that input was a DISCONNECT, round `j` is the loop's last: the
    loop completes exactly `j + 1` rounds, and ends for the lost connection
    unless that was the fifth.
   */
  lemma DisconnectEndsLoop(env: Env, st0: ClientState, cur0: Cursor, j: nat)
    requires j < LoopStop(env, st0, cur0, 0)
    requires var c := TicksAfter(env, st0, cur0, j).cur;
             && env.input(c.inputs).err == 0
             && env.poll(c.polls).pollin
             && LastVerdict(env.input(c.inputs).events) == Decides(false)
    ensures LoopStop(env, st0, cur0, 0) == j + 1
    ensures j + 1 < PubMsgCount ==> LoopExitAt(env, st0, cur0, j + 1) == ConnectionLost
  {
    LoopStopFirst(env, st0, cur0, 0, j);
    DisconnectNoticedNextRound(env, st0, cur0, j);
    LoopStopBefore(env, st0, cur0, 0, j + 1);
  }

  // ---------------------------------------------------------------------------
  // The whole program

  datatype Exit =
    | ModemNotReady
    | NoPppInterface
    | LinkDown
    | BrokerUnresolved
    | ConnectRefused
    | AckPollError
    | AckInputError
    | AckTimeout
    | Finished(why: LoopExit, published: nat)

  /** Exits taken before any broker traffic. */
  predicate BeforeSession(e: Exit) {
    e.ModemNotReady? || e.NoPppInterface? || e.LinkDown?
  }

  datatype Run = Run(exit: Exit, code: int, trace: seq<Action>)

  /** Steps that belong to the broker session. */
  predicate SessionStep(a: Action) {
    a.ResolveBroker? || a.MqttConnect? || a.Poll? || a.Input? || a.Live? || a.Publish? || a.MqttDisconnect?
  }

  /** A trace with no broker-session step in it. */
  predicate NoSession(t: seq<Action>) {
    forall a :: a in t ==> !SessionStep(a)
  }

  /** Joining two traces without session steps gives one, and all of its steps are quiet. */
  lemma NoSessionJoin(a: seq<Action>, b: seq<Action>)
    requires NoSession(a) && NoSession(b)
    ensures NoSession(a + b)
    ensures forall x :: x in a + b ==> Quiet(x)
  {
  }

  lemma PowerNoSession(ldo: Power.Ldo)
    ensures NoSession(Power.PowerCycle(ldo))
  {
  }

  datatype Startup = Startup(ok: bool, exit: Exit, trace: seq<Action>)

  /**
    The part of `main` between the power sequence and the broker traffic:
    modem check and resume, PPP interface lookup and bring-up, and the link
    wait. The check after the wait alone decides whether the link is up.
   */
  method BringUp(env: Env) returns (b: Startup)
    ensures NoSession(b.trace)
    ensures b.ok <==> env.modemReady && env.hasPpp && env.linkUp(LinkWait.FinalQuery(env.linkUp, LinkWait.LinkBudget))
    ensures !b.ok ==> BeforeSession(b.exit)
    ensures !b.ok ==> (b.exit == ModemNotReady <==> !env.modemReady)
    ensures !b.ok ==> (b.exit == NoPppInterface <==> env.modemReady && !env.hasPpp)
  {
    if !env.modemReady {
      return Startup(false, ModemNotReady, []);
    }
    if !env.hasPpp {
      return Startup(false, NoPppInterface, [ModemResume(false)]);
    }
    b := LinkStage(env.linkUp);
  }

  /** The resume, the PPP interface brought up, and the verbose link wait. */
  method LinkStage(linkUp: nat -> bool) returns (b: Startup)
    ensures NoSession(b.trace)
    ensures b.ok <==> linkUp(LinkWait.FinalQuery(linkUp, LinkWait.LinkBudget))
    ensures !b.ok ==> b.exit == LinkDown
  {
    var w := LinkWait.AwaitLink(linkUp, LinkWait.LinkBudget, true);
    assert NoSession(w.trace);
    NoSessionJoin([ModemResume(false), PppUp], w.trace);
    b := Startup(w.up, LinkDown, [ModemResume(false), PppUp] + w.trace);
  }

  /**
    What every way through the broker session guarantees about its steps: one
    disconnect exactly when the publish loop was reached, and as the last step;
    the payloads of rounds 1 to `published`, in order, and nothing published
    otherwise; ten polls when the CONNACK never came.
   */
  predicate SessionShape(exit: Exit, t: seq<Action>) {
    && multiset(t)[MqttDisconnect] == (if exit.Finished? then 1 else 0)
    && (exit.Finished? ==> EndsWith(t, MqttDisconnect) && exit.published <= PubMsgCount)
    && Published(t) == (if exit.Finished? then Messages(exit.published) else [])
    && (exit == AckTimeout ==> |Select(t, IsPoll)| == ConnAckSlices)
  }

  lemma QuietKeepsShape(exit: Exit, pre: seq<Action>, rest: seq<Action>)
    requires forall a :: a in pre ==> Quiet(a)
    requires SessionShape(exit, rest)
    ensures SessionShape(exit, pre + rest)
  {
    QuietPrefix(pre, rest);
  }

  /** The client as the CONNACK wait finds it: not yet connected, polling the broker socket. */
  function SessionStart(env: Env): ClientState {
    ClientState(false, env.brokerFd)
  }

  /** Where the reference iteration of the CONNACK wait first stops. */
  function AckEnd(env: Env): Slice {
    AckAfter(env, SessionStart(env), Cursor(0, 0, 0), AckStop(env, SessionStart(env), Cursor(0, 0, 0), 0))
  }

  /**
    How the broker session ends, read off the answers alone: the CONNACK
    wait's verdict where it first stops, and otherwise the publish loop's
    first stop from there.
   */
  function ConverseExit(env: Env): Exit {
    var a := AckEnd(env);
    match AckVerdict(a)
    case AckPollFailed => AckPollError
    case AckInputFailed => AckInputError
    case AckTimedOut => AckTimeout
    case Acked =>
      var n := LoopStop(env, a.st, a.cur, 0);
      Finished(LoopExitAt(env, a.st, a.cur, n), n)
  }

  /** The session as a whole: resolve, connect, then the exchange. */
  function SessionExit(env: Env): Exit {
    if env.resolveErr != 0 then BrokerUnresolved
    else if env.connectErr != 0 then ConnectRefused
    else ConverseExit(env)
  }

  /**
    Which answers lead to which session exit: the resolve and the connect
    are decisive in that order, the session finishes exactly when the
    CONNACK wait's verdict is an acknowledgement, and it never ends in a
    start-up exit.
   */
  lemma SessionExitCases(env: Env)
    ensures SessionExit(env) == BrokerUnresolved <==> env.resolveErr != 0
    ensures SessionExit(env) == ConnectRefused <==> env.resolveErr == 0 && env.connectErr != 0
    ensures SessionExit(env).Finished? <==>
              env.resolveErr == 0 && env.connectErr == 0 && AckVerdict(AckEnd(env)) == Acked
    ensures SessionExit(env) == AckTimeout <==>
              env.resolveErr == 0 && env.connectErr == 0 && AckVerdict(AckEnd(env)) == AckTimedOut
    ensures SessionExit(env).Finished? ==> SessionExit(env).published <= PubMsgCount
    ensures !BeforeSession(SessionExit(env))
  {
  }

  /**
    The broker session from the connect on: wait for the CONNACK, run the
    publish rounds, and disconnect once after them. An exit from the CONNACK
    wait does not disconnect. The exit is the one the reference iterations
    predict from the answers.
   */
  method Converse(env: Env) returns (exit: Exit, trace: seq<Action>)
    ensures exit == ConverseExit(env)
    ensures exit.AckPollError? || exit.AckInputError? || exit.AckTimeout? || exit.Finished?
    ensures SessionShape(exit, trace)
  {
    var ack := AwaitConnAck(env, SessionStart(env), Cursor(0, 0, 0));
    AckStopAt(env, SessionStart(env), Cursor(0, 0, 0), 0, ack.slices);
    if ack.outcome != Acked {
      exit := match ack.outcome
        case AckPollFailed => AckPollError
        case AckInputFailed => AckInputError
        case _ => AckTimeout;
      trace := ack.trace;
      AckExitShape(exit, trace);
      return;
    }
    var rest;
    exit, rest := PublishAndDisconnect(env, ack.st, ack.cur);
    SilentKeepsShape(exit, ack.trace, rest);
    trace := ack.trace + rest;
  }

  /** An exit from the CONNACK wait leaves nothing published and nothing disconnected. */
  lemma AckExitShape(exit: Exit, t: seq<Action>)
    requires exit.AckPollError? || exit.AckInputError? || exit.AckTimeout?
    requires forall a :: a in t ==> a.Poll? || a.Input?
    requires exit == AckTimeout ==> |Select(t, IsPoll)| == ConnAckSlices
    ensures SessionShape(exit, t)
  {
    NoPublish(t);
    assert MqttDisconnect !in t;
  }

  /** Polls and inputs before the publish loop change nothing the shape of a finished session records. */
  lemma SilentKeepsShape(exit: Exit, pre: seq<Action>, rest: seq<Action>)
    requires exit.Finished?
    requires forall a :: a in pre ==> a.Poll? || a.Input?
    requires SessionShape(exit, rest)
    ensures SessionShape(exit, pre + rest)
  {
    SilentPrefix(pre, rest);
  }

  /** The publish loop, then the one unconditional disconnect. */
  method PublishAndDisconnect(env: Env, st: ClientState, cur: Cursor) returns (exit: Exit, trace: seq<Action>)
    ensures exit == Finished(LoopExitAt(env, st, cur, LoopStop(env, st, cur, 0)), LoopStop(env, st, cur, 0))
    ensures SessionShape(exit, trace)
  {
    var s := PublishRounds(env, st, cur);
    Split(s.trace, [MqttDisconnect]);
    assert Published([MqttDisconnect]) == [];
    trace := s.trace + [MqttDisconnect];
    exit := Finished(s.exit, s.count);
  }

  /**
    The broker session once the link is up: settle, resolve, connect, then
    `Converse`. Failing to resolve stops after the resolve and failing to
    connect after the connect, neither with a disconnect.
   */
  method BrokerSession(env: Env) returns (exit: Exit, trace: seq<Action>)
    ensures exit == SessionExit(env)
    ensures exit == BrokerUnresolved <==> env.resolveErr != 0
    ensures exit == ConnectRefused <==> env.resolveErr == 0 && env.connectErr != 0
    ensures exit.Finished? <==> env.resolveErr == 0 && env.connectErr == 0 && AckVerdict(AckEnd(env)) == Acked
    ensures env.resolveErr != 0 ==> trace == [Sleep(LinkWait.ModemSettleMs), ResolveBroker]
    ensures env.resolveErr == 0 && env.connectErr != 0 ==> trace == [Sleep(LinkWait.ModemSettleMs), ResolveBroker, MqttConnect]
    ensures !BeforeSession(exit)
    ensures SessionShape(exit, trace)
  {
    SessionExitCases(env);
    if env.resolveErr != 0 {
      exit, trace := BrokerUnresolved, [Sleep(LinkWait.ModemSettleMs), ResolveBroker];
    } else if env.connectErr != 0 {
      exit, trace := ConnectRefused, [Sleep(LinkWait.ModemSettleMs), ResolveBroker, MqttConnect];
    } else {
      exit, trace := ConnectedSession(env);
      return;
    }
    QuietKeepsShape(exit, trace, []);
    assert trace + [] == trace;
  }

  /** The broker resolved and accepted the TCP connection: the exchange runs after the three set-up steps. */
  method ConnectedSession(env: Env) returns (exit: Exit, trace: seq<Action>)
    ensures exit == ConverseExit(env)
    ensures |trace| >= 3 && trace[..3] == [Sleep(LinkWait.ModemSettleMs), ResolveBroker, MqttConnect]
    ensures SessionShape(exit, trace)
  {
    var pre := [Sleep(LinkWait.ModemSettleMs), ResolveBroker, MqttConnect];
    assert forall a :: a in pre ==> Quiet(a);
    var rest;
    exit, rest := Converse(env);
    QuietKeepsShape(exit, pre, rest);
    trace := pre + rest;
    assert trace[..3] == pre;
  }

  /** The power cycle, the modem, the PPP interface and the link all came up. */
  predicate StartsUp(env: Env) {
    env.modemReady && env.hasPpp && env.linkUp(LinkWait.FinalQuery(env.linkUp, LinkWait.LinkBudget))
  }

  /** `main` of the MQTT program. */
  method RunMqtt(env: Env) returns (run: Run)
    ensures run.code == if BeforeSession(run.exit) then -1 else 0
    ensures |Power.PowerCycle(env.ldo)| <= |run.trace|
    ensures run.trace[..|Power.PowerCycle(env.ldo)|] == Power.PowerCycle(env.ldo)
    ensures run.exit == ModemNotReady <==> !env.modemReady
    ensures run.exit == NoPppInterface <==> env.modemReady && !env.hasPpp
    ensures run.exit == LinkDown <==>
              env.modemReady && env.hasPpp && !env.linkUp(LinkWait.FinalQuery(env.linkUp, LinkWait.LinkBudget))
    ensures StartsUp(env) ==> run.exit == SessionExit(env)
    ensures run.exit == BrokerUnresolved <==> StartsUp(env) && env.resolveErr != 0
    ensures BeforeSession(run.exit) <==> !StartsUp(env)
    ensures BeforeSession(run.exit) ==> NoSession(run.trace)
    ensures SessionShape(run.exit, run.trace)
  {
    var power := Power.PowerCycle(env.ldo);
    var b := BringUp(env);
    PowerNoSession(env.ldo);
    var pre := power + b.trace;
    NoSessionJoin(power, b.trace);
    if !b.ok {
      QuietKeepsShape(b.exit, pre, []);
      assert pre + [] == pre;
      return Run(b.exit, -1, pre);
    }
    var exit, session := BrokerSession(env);
    var trace := pre + session;
    Prefix3(power, b.trace, session);
    QuietKeepsShape(exit, pre, session);
    return Run(exit, 0, trace);
  }
}
