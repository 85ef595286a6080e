/**
  The five-round UDP echo exchange of the cellular test program: each round
  sends the test message to the echo service (port 7, RFC 862), reports the
  send, zeroes a 32-byte buffer, receives into it, writes a terminator at the
  index `recvfrom` returned, hands the buffer to the log and sleeps 2 s.

  The socket is an open/closed state. A failed receive closes it but does not
  leave the loop, so later rounds send and receive on the closed descriptor;
  every such use is recorded with `onOpen == false`. The terminator index is
  not bounded by the code: each write is recorded with whether it fell inside
  the buffer.

  `sendto` and `recvfrom` answers are oracles indexed by round.
 */
module UdpEcho {
  import opened Errno
  import opened Trace

  const BufferSize := 32
  const Rounds := 5
  const RoundSleepMs := 2000

  /** What `sendto` returned, and `errno` when it returned a negative value. */
  datatype SendAnswer = SendAnswer(ret: int, errno: int)

  /** What `recvfrom` delivered: a datagram (possibly longer than the buffer), or a failure. */
  datatype RecvAnswer = Datagram(data: string) | RecvError

  datatype Sock = Sock(fd: int, open: bool)

  /** The steps of one round, and the socket state it leaves behind. */
  datatype Round = Round(sock: Sock, trace: seq<Action>)

  /** The log line a send produces: the classified errno on failure, the byte count otherwise. */
  function SendReport(s: SendAnswer): (n: Note)
    ensures n.SendFailed? <==> s.ret < 0
    ensures n.SendFailed? ==> (n.reason == Unspecified <==> !Listed(s.errno))
    ensures n.SendFailed? && n.reason != Unspecified ==> CodeOf(n.reason) == s.errno
    ensures n.SendSucceeded? ==> n.bytes == s.ret
  {
    if s.ret < 0 then SendFailed(Classify(s.errno)) else SendSucceeded(s.ret)
  }

  /** What `recvfrom` returns for a 32-byte buffer: -1 on failure, else the bytes copied. */
  function RecvReturn(r: RecvAnswer): (n: int)
    ensures -1 <= n <= BufferSize
    ensures n == -1 <==> r.RecvError?
    ensures r.Datagram? ==> n == if |r.data| < BufferSize then |r.data| else BufferSize
  {
    match r
    case RecvError => -1
    case Datagram(data) => if |data| < BufferSize then |data| else BufferSize
  }

  /** Whether writing the terminator at index `n` stays inside the 32-byte buffer. */
  predicate InBounds(n: int) {
    0 <= n < BufferSize
  }

  function Zeroes(n: nat): (b: string)
    ensures |b| == n
    ensures forall j :: 0 <= j < n ==> b[j] == '\0'
  {
    seq(n, _ => '\0')
  }

  /** The buffer a round hands to the log: the bytes received, then zeroes up to 32. */
  function Received(r: RecvAnswer): (b: string)
    ensures |b| == BufferSize
    ensures forall j :: 0 <= j < RecvReturn(r) ==> b[j] == r.data[j]
    ensures forall j :: 0 <= j < BufferSize && !(j < RecvReturn(r)) ==> b[j] == '\0'
  {
    var n := RecvReturn(r);
    if n <= 0 then Zeroes(BufferSize) else r.data[..n] + Zeroes(BufferSize - n)
  }

  /** `recvfrom` into `buf`: the first bytes of the datagram overwrite the buffer's head. */
  function Fill(buf: string, r: RecvAnswer): (b: string)
    requires |buf| == BufferSize
    ensures |b| == BufferSize
    ensures forall j :: 0 <= j < RecvReturn(r) ==> b[j] == r.data[j]
    ensures forall j :: 0 <= j < BufferSize && !(j < RecvReturn(r)) ==> b[j] == buf[j]
  {
    var n := RecvReturn(r);
    if n <= 0 then buf else r.data[..n] + buf[n..]
  }

  /**
    `buffer[n] = '\0'`: an in-bounds write stores a zero; an out-of-bounds one
    lands outside the array, which the buffer model cannot hold, so the buffer
    is left as it was (the trace records the write).
   */
  function Terminate(buf: string, n: int): (b: string)
    requires |buf| == BufferSize
    ensures |b| == BufferSize
    ensures InBounds(n) ==> b[n] == '\0'
    ensures forall j :: 0 <= j < BufferSize && j != n ==> b[j] == buf[j]
  {
    if InBounds(n) then buf[n := '\0'] else buf
  }

  /** The 32-byte receive buffer. */
  type Buffer = b: string | |b| == BufferSize witness Zeroes(BufferSize)

  /** `memset(buffer, 0, sizeof(buffer))`: every byte of the buffer becomes zero. */
  function Reset(buf: Buffer): (b: Buffer)
    ensures forall j :: 0 <= j < BufferSize ==> b[j] == '\0'
  {
    Zeroes(|buf|)
  }

  /**
    The buffer after one round's `memset`, `recvfrom` and terminator write.
    Whatever the buffer held before (`stale`), the round hands to the log
    exactly the bytes this round received, then zeroes: the reset happens
    before every receive.
   */
  function RoundBuffer(stale: Buffer, r: RecvAnswer): (b: Buffer)
    ensures b == Received(r)
  {
    var n := RecvReturn(r);
    var b := Terminate(Fill(Reset(stale), r), n);
    assert forall j :: 0 <= j < BufferSize ==> b[j] == Received(r)[j];
    b
  }

  /**
    A datagram of 32 bytes or more with no zero byte among its first 32 leaves
    no terminator inside the buffer: the write at index 32 misses the array, so
    the buffer handed to the `%s` log holds no zero byte at all.
   */
  lemma FullBufferUnterminated(stale: Buffer, r: RecvAnswer)
    requires r.Datagram? && |r.data| >= BufferSize
    requires forall j :: 0 <= j < BufferSize ==> r.data[j] != '\0'
    ensures !InBounds(RecvReturn(r))
    ensures forall j :: 0 <= j < BufferSize ==> RoundBuffer(stale, r)[j] != '\0'
  {
  }

  /** The terminator write is in bounds exactly when a datagram shorter than the buffer arrived. */
  lemma TerminatorInBounds(r: RecvAnswer)
    ensures InBounds(RecvReturn(r)) <==> r.Datagram? && |r.data| < BufferSize
    ensures r.RecvError? ==> RecvReturn(r) == -1
    ensures r.Datagram? && |r.data| >= BufferSize ==> RecvReturn(r) == BufferSize
  {
  }

  /** An in-bounds terminator lands on a byte the reset already zeroed. */
  lemma TerminatorRedundant(stale: Buffer, r: RecvAnswer)
    requires InBounds(RecvReturn(r))
    ensures Terminate(Fill(Reset(stale), r), RecvReturn(r)) == Fill(Reset(stale), r)
  {
    var b := Fill(Reset(stale), r);
    assert b[RecvReturn(r) := '\0'] == b;
  }

  predicate IsClose(a: Action) { a.Close? }
  predicate IsTerminator(a: Action) { a.TerminatorWrite? }
  predicate IsSendReport(a: Action) { a.Log? && (a.note.SendFailed? || a.note.SendSucceeded?) }

  /** `[a]` if `keep` selects `a`, else nothing. */
  function Kept(a: Action, keep: Action -> bool): seq<Action> {
    if keep(a) then [a] else []
  }

  lemma Select2(a: Action, b: Action, keep: Action -> bool)
    ensures Select([a, b], keep) == Kept(a, keep) + Kept(b, keep)
  {
    assert [a, b][1..] == [b];
  }

  lemma Select3(a: Action, b: Action, c: Action, keep: Action -> bool)
    ensures Select([a, b, c], keep) == Kept(a, keep) + Kept(b, keep) + Kept(c, keep)
  {
    assert [a, b, c][1..] == [b, c];
    Select2(b, c, keep);
  }

  /** The send and its report. */
  function SendPart(sock: Sock, s: SendAnswer): seq<Action> {
    [Send(sock.fd, sock.open), Log(SendReport(s))]
  }

  /** The receive, and the close and log that follow a failed one. */
  function RecvPart(sock: Sock, r: RecvAnswer): seq<Action> {
    if r.RecvError? then [Recv(sock.fd, sock.open), Close(sock.fd, sock.open), Log(RecvFailed)]
    else [Recv(sock.fd, sock.open)]
  }

  /** The terminator write, the packet log and the pause. */
  function TailPart(r: RecvAnswer): seq<Action> {
    [TerminatorWrite(RecvReturn(r), InBounds(RecvReturn(r))), Log(PacketLogged), Sleep(RoundSleepMs)]
  }

  /** The steps of one pass through the loop body on socket `sock`. */
  function RoundTrace(sock: Sock, s: SendAnswer, r: RecvAnswer): seq<Action> {
    SendPart(sock, s) + RecvPart(sock, r) + TailPart(r)
  }

  /** What `keep` selects from one round, piece by piece. */
  lemma RoundSelect(sock: Sock, s: SendAnswer, r: RecvAnswer, keep: Action -> bool)
    ensures Select(SendPart(sock, s), keep) == Kept(Send(sock.fd, sock.open), keep) + Kept(Log(SendReport(s)), keep)
    ensures Select(RecvPart(sock, r), keep)
         == if r.RecvError? then Kept(Recv(sock.fd, sock.open), keep) + Kept(Close(sock.fd, sock.open), keep) + Kept(Log(RecvFailed), keep)
            else Kept(Recv(sock.fd, sock.open), keep)
    ensures Select(TailPart(r), keep)
         == Kept(TerminatorWrite(RecvReturn(r), InBounds(RecvReturn(r))), keep) + Kept(Log(PacketLogged), keep) + Kept(Sleep(RoundSleepMs), keep)
    ensures Select(RoundTrace(sock, s, r), keep)
         == Select(SendPart(sock, s), keep) + Select(RecvPart(sock, r), keep) + Select(TailPart(r), keep)
  {
    SelectSplit(SendPart(sock, s), RecvPart(sock, r), keep);
    SelectSplit(SendPart(sock, s) + RecvPart(sock, r), TailPart(r), keep);
    Select2(Send(sock.fd, sock.open), Log(SendReport(s)), keep);
    Select3(TerminatorWrite(RecvReturn(r), InBounds(RecvReturn(r))), Log(PacketLogged), Sleep(RoundSleepMs), keep);
    if r.RecvError? {
      Select3(Recv(sock.fd, sock.open), Close(sock.fd, sock.open), Log(RecvFailed), keep);
    } else {
      assert [Recv(sock.fd, sock.open)][1..] == [];
    }
  }

  lemma RoundSends(sock: Sock, s: SendAnswer, r: RecvAnswer)
    ensures Select(RoundTrace(sock, s, r), IsSend) == [Send(sock.fd, sock.open)]
  {
    RoundSelect(sock, s, r, IsSend);
    assert Kept(Send(sock.fd, sock.open), IsSend) == [Send(sock.fd, sock.open)];
    assert Select(SendPart(sock, s), IsSend) == [Send(sock.fd, sock.open)];
    assert Select(RecvPart(sock, r), IsSend) == [];
    assert Select(TailPart(r), IsSend) == [];
  }

  lemma RoundRecvs(sock: Sock, s: SendAnswer, r: RecvAnswer)
    ensures Select(RoundTrace(sock, s, r), IsRecv) == [Recv(sock.fd, sock.open)]
  {
    RoundSelect(sock, s, r, IsRecv);
    assert Kept(Recv(sock.fd, sock.open), IsRecv) == [Recv(sock.fd, sock.open)];
    assert Select(SendPart(sock, s), IsRecv) == [];
    assert Select(RecvPart(sock, r), IsRecv) == [Recv(sock.fd, sock.open)];
    assert Select(TailPart(r), IsRecv) == [];
  }

  lemma RoundCloses(sock: Sock, s: SendAnswer, r: RecvAnswer)
    ensures Select(RoundTrace(sock, s, r), IsClose) == if r.RecvError? then [Close(sock.fd, sock.open)] else []
  {
    RoundSelect(sock, s, r, IsClose);
    assert Kept(Close(sock.fd, sock.open), IsClose) == [Close(sock.fd, sock.open)];
    assert Select(SendPart(sock, s), IsClose) == [];
    assert Select(RecvPart(sock, r), IsClose) == if r.RecvError? then [Close(sock.fd, sock.open)] else [];
    assert Select(TailPart(r), IsClose) == [];
  }

  lemma RoundTerminators(sock: Sock, s: SendAnswer, r: RecvAnswer)
    ensures Select(RoundTrace(sock, s, r), IsTerminator) == [TerminatorWrite(RecvReturn(r), InBounds(RecvReturn(r)))]
  {
    var w := TerminatorWrite(RecvReturn(r), InBounds(RecvReturn(r)));
    RoundSelect(sock, s, r, IsTerminator);
    assert Kept(w, IsTerminator) == [w];
    assert Select(SendPart(sock, s), IsTerminator) == [];
    assert Select(RecvPart(sock, r), IsTerminator) == [];
    assert Select(TailPart(r), IsTerminator) == [w];
  }

  lemma RoundReports(sock: Sock, s: SendAnswer, r: RecvAnswer)
    ensures Select(RoundTrace(sock, s, r), IsSendReport) == [Log(SendReport(s))]
  {
    RoundSelect(sock, s, r, IsSendReport);
    assert IsSendReport(Log(SendReport(s)));
    assert !IsSendReport(Log(RecvFailed)) && !IsSendReport(Log(PacketLogged));
    assert Select(SendPart(sock, s), IsSendReport) == [Log(SendReport(s))];
    assert Select(RecvPart(sock, r), IsSendReport) == [];
    assert Select(TailPart(r), IsSendReport) == [];
  }

  lemma RoundSleeps(sock: Sock, s: SendAnswer, r: RecvAnswer)
    ensures SleptMs(RoundTrace(sock, s, r)) == RoundSleepMs
  {
    var n := RecvReturn(r);
    var t := RoundTrace(sock, s, r);
    var k := |t| - 3;
    assert t == t[..k] + [TerminatorWrite(n, InBounds(n)), Log(PacketLogged)] + [Sleep(RoundSleepMs)];
    Split(t[..k] + [TerminatorWrite(n, InBounds(n)), Log(PacketLogged)], [Sleep(RoundSleepMs)]);
    NoSleep(t[..k] + [TerminatorWrite(n, InBounds(n)), Log(PacketLogged)]);
  }

  /** One pass through the loop body on socket `sock`. */
  function EchoRound(sock: Sock, s: SendAnswer, r: RecvAnswer): (o: Round)
    ensures o.sock.fd == sock.fd
    ensures o.sock.open <==> sock.open && r.Datagram?
    ensures Select(o.trace, IsSend) == [Send(sock.fd, sock.open)]
    ensures Select(o.trace, IsRecv) == [Recv(sock.fd, sock.open)]
    ensures Select(o.trace, IsClose) == if r.RecvError? then [Close(sock.fd, sock.open)] else []
    ensures Select(o.trace, IsTerminator) == [TerminatorWrite(RecvReturn(r), InBounds(RecvReturn(r)))]
    ensures Select(o.trace, IsSendReport) == [Log(SendReport(s))]
    ensures SleptMs(o.trace) == RoundSleepMs
  {
    RoundSends(sock, s, r);
    RoundRecvs(sock, s, r);
    RoundCloses(sock, s, r);
    RoundTerminators(sock, s, r);
    RoundReports(sock, s, r);
    RoundSleeps(sock, s, r);
    Round(Sock(sock.fd, sock.open && r.Datagram?), RoundTrace(sock, s, r))
  }

  /** How many of the first `k` receives failed. */
  function RecvFailures(recv: nat -> RecvAnswer, k: nat): (f: nat)
    ensures f <= k
    ensures f == 0 <==> forall j :: 0 <= j < k ==> recv(j).Datagram?
  {
    if k == 0 then 0 else RecvFailures(recv, k - 1) + (if recv(k - 1).RecvError? then 1 else 0)
  }

  /** The socket as round `k` finds it: open until the first failed receive. */
  function SockAt(fd: int, recv: nat -> RecvAnswer, k: nat): Sock {
    Sock(fd, RecvFailures(recv, k) == 0)
  }

  /** The buffers the first `n` rounds hand to the log. */
  function LoggedBuffers(recv: nat -> RecvAnswer, n: nat): seq<string> {
    if n == 0 then [] else LoggedBuffers(recv, n - 1) + [Received(recv(n - 1))]
  }

  lemma {:induction false} LoggedBuffersAt(recv: nat -> RecvAnswer, n: nat)
    ensures |LoggedBuffers(recv, n)| == n
    ensures forall k :: 0 <= k < n ==> LoggedBuffers(recv, n)[k] == Received(recv(k))
  {
    if n > 0 {
      LoggedBuffersAt(recv, n - 1);
    }
  }

  /** The steps of round `k`, for every `k`. */
  function RoundsOf(fd: int, send: nat -> SendAnswer, recv: nat -> RecvAnswer): nat -> seq<Action> {
    (k: nat) => RoundTrace(SockAt(fd, recv, k), send(k), recv(k))
  }

  /** The steps of rounds `0` to `n - 1`, one after the other. */
  function Concat(rounds: nat -> seq<Action>, n: nat): seq<Action> {
    if n == 0 then [] else Concat(rounds, n - 1) + rounds(n - 1)
  }

  /** The steps of the first `n` rounds, one after the other. */
  function EchoTrace(fd: int, send: nat -> SendAnswer, recv: nat -> RecvAnswer, n: nat): seq<Action> {
    Concat(RoundsOf(fd, send, recv), n)
  }

  /** Where the loop stands after some rounds: the socket, the buffers handed to the log so far, and the steps so far. */
  datatype Echo = Echo(sock: Sock, logged: seq<string>, trace: seq<Action>)

  /** Round `k` of the loop leaves the socket as round `k + 1` finds it. */
  lemma EchoRoundAt(fd: int, send: nat -> SendAnswer, recv: nat -> RecvAnswer, k: nat)
    ensures EchoRound(SockAt(fd, recv, k), send(k), recv(k)) == Round(SockAt(fd, recv, k + 1), RoundsOf(fd, send, recv)(k))
  {
  }

  /**
    The `for` loop: exactly five rounds, with no exit in between. Returns the
    socket state after the loop, the buffer each round handed to the log, and
    the steps.
   */
  method EchoRounds(fd: int, send: nat -> SendAnswer, recv: nat -> RecvAnswer, stale: Buffer) returns (e: Echo)
    ensures e.sock == Sock(fd, RecvFailures(recv, Rounds) == 0)
    ensures |e.logged| == Rounds
    ensures forall k :: 0 <= k < Rounds ==> e.logged[k] == Received(recv(k))
    ensures e.trace == EchoTrace(fd, send, recv, Rounds)
  {
    e := Echo(Sock(fd, true), [], []);
    var buffer := stale;
    var i := 0;
    while i < Rounds
      invariant 0 <= i <= Rounds
      invariant e.sock == SockAt(fd, recv, i)
      invariant e.logged == LoggedBuffers(recv, i)
      invariant e.trace == EchoTrace(fd, send, recv, i)
    {
      var round := EchoRound(e.sock, send(i), recv(i));
      EchoRoundAt(fd, send, recv, i);
      buffer := RoundBuffer(buffer, recv(i));
      e := Echo(round.sock, e.logged + [buffer], e.trace + round.trace);
      i := i + 1;
    }
    LoggedBuffersAt(recv, Rounds);
  }

  /** The close round `k` performs: one, on the socket as the round found it, when its receive failed. */
  function CloseAt(fd: int, recv: nat -> RecvAnswer, k: nat): seq<Action> {
    if recv(k).RecvError? then [Close(fd, RecvFailures(recv, k) == 0)] else []
  }

  /** The closing steps of the first `n` rounds: one per failed receive, only the first on an open socket. */
  function ClosesOf(fd: int, recv: nat -> RecvAnswer, n: nat): (cs: seq<Action>)
    ensures |cs| == RecvFailures(recv, n)
    ensures forall j :: 0 <= j < |cs| ==> cs[j] == Close(fd, j == 0)
  {
    if n == 0 then [] else ClosesOf(fd, recv, n - 1) + CloseAt(fd, recv, n - 1)
  }

  /** A selection that picks exactly `f(k)` from round `k` picks `f(0), f(1), ...` from the rounds together. */
  lemma {:induction false} OnePerRound(rounds: nat -> seq<Action>, n: nat, keep: Action -> bool, f: nat -> Action)
    requires forall k: nat :: Select(rounds(k), keep) == [f(k)]
    ensures |Select(Concat(rounds, n), keep)| == n
    ensures forall k :: 0 <= k < n ==> Select(Concat(rounds, n), keep)[k] == f(k)
  {
    if n > 0 {
      OnePerRound(rounds, n - 1, keep, f);
      SelectSplit(Concat(rounds, n - 1), rounds(n - 1), keep);
    }
  }

  /** A selection of closes that picks round `k`'s close, if any, from each round picks `ClosesOf` from them together. */
  lemma {:induction false} ConcatCloses(fd: int, recv: nat -> RecvAnswer, rounds: nat -> seq<Action>, n: nat)
    requires forall k: nat :: Select(rounds(k), IsClose) == CloseAt(fd, recv, k)
    ensures Select(Concat(rounds, n), IsClose) == ClosesOf(fd, recv, n)
  {
    if n > 0 {
      ConcatCloses(fd, recv, rounds, n - 1);
      SelectSplit(Concat(rounds, n - 1), rounds(n - 1), IsClose);
    }
  }

  /** Rounds that each sleep `ms` sleep `ms * n` together. */
  lemma {:induction false} ConcatSleeps(rounds: nat -> seq<Action>, n: nat, ms: nat)
    requires forall k: nat :: SleptMs(rounds(k)) == ms
    ensures SleptMs(Concat(rounds, n)) == ms * n
  {
    if n > 0 {
      ConcatSleeps(rounds, n - 1, ms);
      Split(Concat(rounds, n - 1), rounds(n - 1));
      assert ms * n == ms * (n - 1) + ms;
    }
  }

  // The trace facts of the echo phase, one lemma per selector: every round
  // sends once and receives once, on the socket as that round found it; the
  // k-th terminator write is at the k-th `recvfrom` result; the k-th send is
  // reported with the k-th answer; the only closes are those of failed
  // receives, and only the first of them finds the socket open.

  lemma EchoSends(fd: int, send: nat -> SendAnswer, recv: nat -> RecvAnswer, n: nat)
    ensures |Select(EchoTrace(fd, send, recv, n), IsSend)| == n
    ensures forall k :: 0 <= k < n ==> Select(EchoTrace(fd, send, recv, n), IsSend)[k] == Send(fd, RecvFailures(recv, k) == 0)
  {
    forall k: nat
      ensures Select(RoundTrace(SockAt(fd, recv, k), send(k), recv(k)), IsSend) == [Send(fd, RecvFailures(recv, k) == 0)]
    {
      RoundSends(SockAt(fd, recv, k), send(k), recv(k));
    }
    OnePerRound(RoundsOf(fd, send, recv), n, IsSend, (k: nat) => Send(fd, RecvFailures(recv, k) == 0));
  }

  lemma EchoRecvs(fd: int, send: nat -> SendAnswer, recv: nat -> RecvAnswer, n: nat)
    ensures |Select(EchoTrace(fd, send, recv, n), IsRecv)| == n
    ensures forall k :: 0 <= k < n ==> Select(EchoTrace(fd, send, recv, n), IsRecv)[k] == Recv(fd, RecvFailures(recv, k) == 0)
  {
    forall k: nat
      ensures Select(RoundTrace(SockAt(fd, recv, k), send(k), recv(k)), IsRecv) == [Recv(fd, RecvFailures(recv, k) == 0)]
    {
      RoundRecvs(SockAt(fd, recv, k), send(k), recv(k));
    }
    OnePerRound(RoundsOf(fd, send, recv), n, IsRecv, (k: nat) => Recv(fd, RecvFailures(recv, k) == 0));
  }

  lemma EchoTerminators(fd: int, send: nat -> SendAnswer, recv: nat -> RecvAnswer, n: nat)
    ensures |Select(EchoTrace(fd, send, recv, n), IsTerminator)| == n
    ensures forall k :: 0 <= k < n ==>
      Select(EchoTrace(fd, send, recv, n), IsTerminator)[k] == TerminatorWrite(RecvReturn(recv(k)), InBounds(RecvReturn(recv(k))))
  {
    forall k: nat
      ensures Select(RoundTrace(SockAt(fd, recv, k), send(k), recv(k)), IsTerminator)
           == [TerminatorWrite(RecvReturn(recv(k)), InBounds(RecvReturn(recv(k))))]
    {
      RoundTerminators(SockAt(fd, recv, k), send(k), recv(k));
    }
    OnePerRound(RoundsOf(fd, send, recv), n, IsTerminator, (k: nat) => TerminatorWrite(RecvReturn(recv(k)), InBounds(RecvReturn(recv(k)))));
  }

  lemma EchoReports(fd: int, send: nat -> SendAnswer, recv: nat -> RecvAnswer, n: nat)
    ensures |Select(EchoTrace(fd, send, recv, n), IsSendReport)| == n
    ensures forall k :: 0 <= k < n ==> Select(EchoTrace(fd, send, recv, n), IsSendReport)[k] == Log(SendReport(send(k)))
  {
    forall k: nat
      ensures Select(RoundTrace(SockAt(fd, recv, k), send(k), recv(k)), IsSendReport) == [Log(SendReport(send(k)))]
    {
      RoundReports(SockAt(fd, recv, k), send(k), recv(k));
    }
    OnePerRound(RoundsOf(fd, send, recv), n, IsSendReport, (k: nat) => Log(SendReport(send(k))));
  }

  lemma EchoCloses(fd: int, send: nat -> SendAnswer, recv: nat -> RecvAnswer, n: nat)
    ensures Select(EchoTrace(fd, send, recv, n), IsClose) == ClosesOf(fd, recv, n)
  {
    forall k: nat
      ensures Select(RoundTrace(SockAt(fd, recv, k), send(k), recv(k)), IsClose) == CloseAt(fd, recv, k)
    {
      RoundCloses(SockAt(fd, recv, k), send(k), recv(k));
    }
    ConcatCloses(fd, recv, RoundsOf(fd, send, recv), n);
  }

  lemma EchoSleeps(fd: int, send: nat -> SendAnswer, recv: nat -> RecvAnswer, n: nat)
    ensures SleptMs(EchoTrace(fd, send, recv, n)) == RoundSleepMs * n
  {
    forall k: nat
      ensures SleptMs(RoundTrace(SockAt(fd, recv, k), send(k), recv(k))) == RoundSleepMs
    {
      RoundSleeps(SockAt(fd, recv, k), send(k), recv(k));
    }
    ConcatSleeps(RoundsOf(fd, send, recv), n, RoundSleepMs);
  }
}
