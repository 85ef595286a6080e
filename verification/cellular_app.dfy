/**
  The cellular UDP test program: power sequence, modem checks and resume, PPP
  bring-up and link wait, socket creation, a 5 s settle, the five echo rounds,
  a final close, and then an idle loop that never returns.

  A modem device that does not exist is only logged: the program carries on
  and asks the power-management layer to resume the missing device. A modem
  that exists but is not ready ends the program.
 */
module CellularApp {
  import opened Trace
  import Power
  import LinkWait
  import opened UdpEcho


  /** The modem device as `main` finds it. */
  datatype Modem = Missing | Present(ready: bool)

  datatype Env = Env(
    ldo: Power.Ldo,
    modem: Modem,
    hasPpp: bool,
    linkUp: nat -> bool,
    socketRet: int,
    send: nat -> SendAnswer,
    recv: nat -> RecvAnswer,
    stale: Buffer)

  /** How `main` ends: four returns of -1, or the idle loop after the echo rounds. */
  datatype Exit = ModemNotReady | NoPppInterface | LinkDown | SocketFailed | Idle

  datatype Outcome = Returned(code: int) | Idles

  datatype Run = Run(exit: Exit, outcome: Outcome, trace: seq<Action>)

  /** Steps of the echo rounds: socket traffic, closes, terminator writes and send reports. */
  predicate EchoAction(a: Action) {
    a.Send? || a.Recv? || a.Close? || a.TerminatorWrite? || IsSendReport(a)
  }

  predicate NoEcho(t: seq<Action>) {
    forall a :: a in t ==> !EchoAction(a)
  }

  /** One send in each of `n` rounds, on the socket as that round found it. */
  predicate SendsShape(fd: int, recv: nat -> RecvAnswer, n: nat, t: seq<Action>) {
    && |Select(t, IsSend)| == n
    && forall k :: 0 <= k < n ==> Select(t, IsSend)[k] == Send(fd, RecvFailures(recv, k) == 0)
  }

  /** One receive in each of `n` rounds, on the socket as that round found it. */
  predicate RecvsShape(fd: int, recv: nat -> RecvAnswer, n: nat, t: seq<Action>) {
    && |Select(t, IsRecv)| == n
    && forall k :: 0 <= k < n ==> Select(t, IsRecv)[k] == Recv(fd, RecvFailures(recv, k) == 0)
  }

  /** One terminator write in each of `n` rounds, at that round's `recvfrom` result. */
  predicate TerminatorsShape(recv: nat -> RecvAnswer, n: nat, t: seq<Action>) {
    && |Select(t, IsTerminator)| == n
    && forall k :: 0 <= k < n ==>
         Select(t, IsTerminator)[k] == TerminatorWrite(RecvReturn(recv(k)), InBounds(RecvReturn(recv(k))))
  }

  /** One send report in each of `n` rounds, classifying that round's `sendto` answer. */
  predicate ReportsShape(send: nat -> SendAnswer, n: nat, t: seq<Action>) {
    && |Select(t, IsSendReport)| == n
    && forall k :: 0 <= k < n ==> Select(t, IsSendReport)[k] == Log(SendReport(send(k)))
  }

  /**
    The closes of the receives that failed in `n` rounds, then the final
    close, which finds the socket open only if none failed.
   */
  predicate ClosesShape(fd: int, recv: nat -> RecvAnswer, n: nat, t: seq<Action>) {
    Select(t, IsClose) == ClosesOf(fd, recv, n) + [Close(fd, RecvFailures(recv, n) == 0)]
  }

  predicate ShapeOf(fd: int, send: nat -> SendAnswer, recv: nat -> RecvAnswer, n: nat, t: seq<Action>) {
    && SendsShape(fd, recv, n, t)
    && RecvsShape(fd, recv, n, t)
    && TerminatorsShape(recv, n, t)
    && ReportsShape(send, n, t)
    && ClosesShape(fd, recv, n, t)
  }

  /** What the five rounds and the final close leave in a trace. */
  predicate EchoShape(fd: int, send: nat -> SendAnswer, recv: nat -> RecvAnswer, t: seq<Action>) {
    ShapeOf(fd, send, recv, Rounds, t)
  }

  /** `n` rounds followed by the final close have the shape of `n` rounds. */
  lemma RoundsThenClose(fd: int, send: nat -> SendAnswer, recv: nat -> RecvAnswer, n: nat)
    ensures ShapeOf(fd, send, recv, n, EchoTrace(fd, send, recv, n) + [Close(fd, RecvFailures(recv, n) == 0)])
  {
    var t := EchoTrace(fd, send, recv, n);
    var fin := [Close(fd, RecvFailures(recv, n) == 0)];
    SendsThenClose(fd, send, recv, n, t, fin);
    RecvsThenClose(fd, send, recv, n, t, fin);
    TerminatorsThenClose(fd, send, recv, n, t, fin);
    ReportsThenClose(fd, send, recv, n, t, fin);
    ClosesThenClose(fd, send, recv, n, t, fin);
  }

  lemma SendsThenClose(fd: int, send: nat -> SendAnswer, recv: nat -> RecvAnswer, n: nat, t: seq<Action>, fin: seq<Action>)
    requires t == EchoTrace(fd, send, recv, n) && fin == [Close(fd, RecvFailures(recv, n) == 0)]
    ensures SendsShape(fd, recv, n, t + fin)
  {
    EchoSends(fd, send, recv, n);
    SelectAppendNone(t, fin, IsSend);
  }

  lemma RecvsThenClose(fd: int, send: nat -> SendAnswer, recv: nat -> RecvAnswer, n: nat, t: seq<Action>, fin: seq<Action>)
    requires t == EchoTrace(fd, send, recv, n) && fin == [Close(fd, RecvFailures(recv, n) == 0)]
    ensures RecvsShape(fd, recv, n, t + fin)
  {
    EchoRecvs(fd, send, recv, n);
    SelectAppendNone(t, fin, IsRecv);
  }

  lemma TerminatorsThenClose(fd: int, send: nat -> SendAnswer, recv: nat -> RecvAnswer, n: nat, t: seq<Action>, fin: seq<Action>)
    requires t == EchoTrace(fd, send, recv, n) && fin == [Close(fd, RecvFailures(recv, n) == 0)]
    ensures TerminatorsShape(recv, n, t + fin)
  {
    EchoTerminators(fd, send, recv, n);
    SelectAppendNone(t, fin, IsTerminator);
  }

  lemma ReportsThenClose(fd: int, send: nat -> SendAnswer, recv: nat -> RecvAnswer, n: nat, t: seq<Action>, fin: seq<Action>)
    requires t == EchoTrace(fd, send, recv, n) && fin == [Close(fd, RecvFailures(recv, n) == 0)]
    ensures ReportsShape(send, n, t + fin)
  {
    EchoReports(fd, send, recv, n);
    SelectAppendNone(t, fin, IsSendReport);
  }

  lemma ClosesThenClose(fd: int, send: nat -> SendAnswer, recv: nat -> RecvAnswer, n: nat, t: seq<Action>, fin: seq<Action>)
    requires t == EchoTrace(fd, send, recv, n) && fin == [Close(fd, RecvFailures(recv, n) == 0)]
    ensures ClosesShape(fd, recv, n, t + fin)
  {
    EchoCloses(fd, send, recv, n);
    SelectSplit(t, fin, IsClose);
    assert Select(fin, IsClose) == fin;
  }

  /** Steps before the rounds that hold no echo action leave the shape as it is. */
  lemma NoEchoPrefix(fd: int, send: nat -> SendAnswer, recv: nat -> RecvAnswer, pre: seq<Action>, t: seq<Action>)
    requires NoEcho(pre)
    requires EchoShape(fd, send, recv, t)
    ensures EchoShape(fd, send, recv, pre + t)
  {
    SelectPrependNone(pre, t, IsSend);
    SelectPrependNone(pre, t, IsRecv);
    SelectPrependNone(pre, t, IsTerminator);
    SelectPrependNone(pre, t, IsSendReport);
    SelectPrependNone(pre, t, IsClose);
  }

  /** The five echo rounds on socket `fd`, then the close after the loop. */
  method EchoPhase(fd: int, send: nat -> SendAnswer, recv: nat -> RecvAnswer, stale: Buffer) returns (t: seq<Action>)
    ensures EchoShape(fd, send, recv, t)
  {
    var e := EchoRounds(fd, send, recv, stale);
    RoundsThenClose(fd, send, recv, Rounds);
    t := e.trace + [Close(fd, e.sock.open)];
  }

  lemma PowerNoEcho(ldo: Power.Ldo)
    ensures NoEcho(Power.PowerCycle(ldo))
  {
  }

  lemma NoEchoJoin(a: seq<Action>, b: seq<Action>)
    requires NoEcho(a) && NoEcho(b)
    ensures NoEcho(a + b)
  {
  }

  /**
    How `main` ends, decided by the environment alone: each check before the
    echo rounds that fails returns -1; passing them all leads to the idle loop.
   */
  function StartupExit(env: Env): Exit {
    if env.modem == Present(false) then ModemNotReady
    else if !env.hasPpp then NoPppInterface
    else if !env.linkUp(LinkWait.FinalQuery(env.linkUp, LinkWait.LinkBudget)) then LinkDown
    else if env.socketRet < 0 then SocketFailed
    else Idle
  }

  /**
    Each early exit happens exactly when its own check fails and every earlier
    check passed. A missing modem is not among them.
   */
  lemma StartupExitCases(env: Env)
    ensures StartupExit(env) == ModemNotReady <==> env.modem == Present(false)
    ensures StartupExit(env) == NoPppInterface <==> env.modem != Present(false) && !env.hasPpp
    ensures StartupExit(env) == LinkDown <==>
              env.modem != Present(false) && env.hasPpp && !env.linkUp(LinkWait.FinalQuery(env.linkUp, LinkWait.LinkBudget))
    ensures StartupExit(env) == SocketFailed <==>
              env.modem != Present(false) && env.hasPpp && env.linkUp(LinkWait.FinalQuery(env.linkUp, LinkWait.LinkBudget))
              && env.socketRet < 0
    ensures StartupExit(env) == Idle <==>
              env.modem != Present(false) && env.hasPpp && env.linkUp(LinkWait.FinalQuery(env.linkUp, LinkWait.LinkBudget))
              && env.socketRet >= 0
    ensures env.modem.Missing? ==> StartupExit(env) != ModemNotReady
  {
  }

  /**
    No echo step, and, when the modem device is missing, both the log line
    saying so and the resume of the missing device.
   */
  predicate Clean(modem: Modem, t: seq<Action>) {
    && NoEcho(t)
    && (modem.Missing? ==> Log(ModemMissing) in t && ModemResume(true) in t)
  }

  lemma CleanGrows(modem: Modem, a: seq<Action>, b: seq<Action>)
    requires Clean(modem, a) && NoEcho(b)
    ensures Clean(modem, a + b)
  {
    NoEchoJoin(a, b);
    Prefix(a, b);
  }

  /** The modem check's log line, if any, and the resume request. */
  function ModemSteps(modem: Modem): (t: seq<Action>)
    requires modem != Present(false)
    ensures Clean(modem, t)
  {
    var checked := if modem.Missing? then [Log(ModemMissing)] else [];
    var t := checked + [ModemResume(modem.Missing?)];
    assert t[|t| - 1] == ModemResume(modem.Missing?);
    t
  }

  datatype Startup = Startup(ok: bool, exit: Exit, trace: seq<Action>)

  /**
    `main` between the power sequence and the echo rounds: the modem checks
    and resume, the PPP interface, the link wait (which logs nothing on each
    pass), the socket and the settle.
   */
  method BringUp(env: Env) returns (b: Startup)
    ensures b.exit == StartupExit(env)
    ensures b.ok <==> b.exit == Idle
    ensures Clean(env.modem, b.trace)
  {
    if env.modem == Present(false) {
      return Startup(false, ModemNotReady, []);
    }
    var t := ModemSteps(env.modem);
    if !env.hasPpp {
      return Startup(false, NoPppInterface, t);
    }
    b := NetworkStage(env, t);
  }

  /**
    The rest of the bring-up once the modem checks and the PPP interface
    lookup have passed: the link wait, the socket and the settle, after the
    steps `t` already taken.
   */
  method NetworkStage(env: Env, t: seq<Action>) returns (b: Startup)
    requires env.modem != Present(false) && env.hasPpp
    requires Clean(env.modem, t)
    ensures b.exit == StartupExit(env)
    ensures b.ok <==> b.exit == Idle
    ensures Clean(env.modem, b.trace)
  {
    var w := LinkWait.AwaitLink(env.linkUp, LinkWait.LinkBudget, false);
    assert NoEcho([PppUp] + w.trace);
    CleanGrows(env.modem, t, [PppUp] + w.trace);
    var u := t + ([PppUp] + w.trace);
    if !w.up {
      return Startup(false, LinkDown, u);
    }
    CleanGrows(env.modem, u, [OpenSocket]);
    u := u + [OpenSocket];
    if env.socketRet < 0 {
      return Startup(false, SocketFailed, u);
    }
    CleanGrows(env.modem, u, [Sleep(LinkWait.ModemSettleMs)]);
    return Startup(true, Idle, u + [Sleep(LinkWait.ModemSettleMs)]);
  }

  /** `main` of the cellular program. */
  method RunCellular(env: Env) returns (run: Run)
    ensures run.exit == StartupExit(env)
    ensures run.outcome == if run.exit == Idle then Idles else Returned(-1)
    ensures |Power.PowerCycle(env.ldo)| <= |run.trace|
    ensures run.trace[..|Power.PowerCycle(env.ldo)|] == Power.PowerCycle(env.ldo)
    ensures env.modem.Missing? ==> Log(ModemMissing) in run.trace && ModemResume(true) in run.trace
    ensures run.exit != Idle ==> NoEcho(run.trace)
    ensures run.exit == Idle ==> EchoShape(env.socketRet, env.send, env.recv, run.trace)
  {
    var power := Power.PowerCycle(env.ldo);
    PowerNoEcho(env.ldo);
    var b := BringUp(env);
    if !b.ok {
      NoEchoJoin(power, b.trace);
      Prefix(power, b.trace);
      return Run(b.exit, Returned(-1), power + b.trace);
    }
    var rest := EchoPhase(env.socketRet, env.send, env.recv, env.stale);
    var tail := b.trace + rest;
    NoEchoPrefix(env.socketRet, env.send, env.recv, b.trace, rest);
    NoEchoPrefix(env.socketRet, env.send, env.recv, power, tail);
    Prefix(b.trace, rest);
    Prefix(power, tail);
    return Run(Idle, Idles, power + tail);
  }

  /**
    Whenever a receive fails, the socket is closed twice or more: once in the
    round that failed, and again after the loop on a descriptor that is
    already closed. With no failure, the only close is the final one.
   */
  lemma DoubleClose(fd: int, recv: nat -> RecvAnswer, t: seq<Action>)
    requires ClosesShape(fd, recv, Rounds, t)
    ensures |Select(t, IsClose)| == RecvFailures(recv, Rounds) + 1
    ensures RecvFailures(recv, Rounds) == 0 ==> Select(t, IsClose) == [Close(fd, true)]
    ensures RecvFailures(recv, Rounds) > 0 <==> Close(fd, false) in Select(t, IsClose)
  {
    var cs := ClosesOf(fd, recv, Rounds);
    var all := Select(t, IsClose);
    if RecvFailures(recv, Rounds) > 0 {
      assert all[|all| - 1] == Close(fd, false);
    } else {
      assert cs == [];
      assert forall j :: 0 <= j < |all| ==> all[j] == Close(fd, true);
    }
  }

  /**
    A receive failing in round `k` leaves every later round sending and
    receiving on the closed descriptor.
   */
  lemma UseAfterClose(fd: int, recv: nat -> RecvAnswer, t: seq<Action>, k: nat, m: nat)
    requires SendsShape(fd, recv, Rounds, t) && RecvsShape(fd, recv, Rounds, t)
    requires k < m < Rounds
    requires recv(k).RecvError?
    ensures Select(t, IsSend)[m] == Send(fd, false)
    ensures Select(t, IsRecv)[m] == Recv(fd, false)
  {
    assert !recv(k).Datagram?;
  }

  /**
    The terminator write of round `k` lands outside the 32-byte buffer exactly
    when that round's receive failed (index -1) or filled the whole buffer
    (index 32); nothing in the loop prevents either.
   */
  lemma OutOfBoundsWrite(recv: nat -> RecvAnswer, t: seq<Action>, k: nat)
    requires TerminatorsShape(recv, Rounds, t)
    requires k < Rounds
    ensures !Select(t, IsTerminator)[k].inBounds <==> recv(k).RecvError? || |recv(k).data| >= BufferSize
    ensures recv(k).RecvError? ==> Select(t, IsTerminator)[k].index == -1
    ensures recv(k).Datagram? && |recv(k).data| >= BufferSize ==> Select(t, IsTerminator)[k].index == BufferSize
  {
    TerminatorInBounds(recv(k));
  }
}
