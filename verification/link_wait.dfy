/**
  The PPP link wait both programs share:

    timeout = budget; while (timeout-- > 0 && !is_up) { [log timeout + 1;] sleep 1 s; }
    if (!is_up) fail;

  The countdown is decremented before it is compared, so the comparison sees
  the pre-decrement value and `timeout + 1` in the body is that same value.
  Success is decided by the separate query after the loop, which may answer
  differently from the one that ended the loop.
 */
module LinkWait {
  import opened Trace

  const PollMs := 1000
  /** Both programs give the PPP link 60 polls before giving up. */
  const LinkBudget := 60
  /** Both programs sleep 5 s after the link comes up, before using the network. */
  const ModemSettleMs := 5000

  /** How many of the first `n` answers of `isUp` are "down" before the first "up". */
  function DownRun(isUp: nat -> bool, n: nat): (k: nat)
    ensures k <= n
    ensures forall j :: 0 <= j < k ==> !isUp(j)
    ensures k < n ==> isUp(k)
    decreases n
  {
    if n == 0 then 0
    else
      var k := DownRun(isUp, n - 1);
      if k < n - 1 || isUp(n - 1) then k else n
  }

  /**
    The result of one wait: how many times `net_if_is_up` was asked inside the
    loop, how many 1 s sleeps happened, the countdown values the body saw, the
    answer of the final check, and the steps taken.
   */
  datatype Wait = Wait(queries: nat, sleeps: nat, left: seq<int>, up: bool, trace: seq<Action>)

  /**
    The wait loop, with `isUp(k)` the answer to the k-th query (counting from 0)
    and `verbose` telling whether the body logs the countdown (the MQTT program
    does, the UDP program does not).
   */
  method AwaitLink(isUp: nat -> bool, budget: nat, verbose: bool) returns (w: Wait)
    ensures w.sleeps == DownRun(isUp, budget)
    ensures w.queries == if w.sleeps < budget then w.sleeps + 1 else budget
    ensures |w.left| == w.sleeps
    ensures forall j :: 0 <= j < w.sleeps ==> w.left[j] == budget - j
    ensures w.up == isUp(w.queries)
    ensures w.queries == FinalQuery(isUp, budget)
    ensures SleptMs(w.trace) == PollMs * w.sleeps
    ensures WaitLogs(w.trace) == if verbose then w.left else []
    ensures forall a :: a in w.trace ==> WaitAction(verbose, a)
  {
    var queries, sleeps, left, trace := WaitLoop(isUp, budget, verbose);
    var up := isUp(queries);
    w := Wait(queries, sleeps, left, up, trace);
  }

  /** The `while` loop itself, up to the check after it. */
  method WaitLoop(isUp: nat -> bool, budget: nat, verbose: bool)
    returns (queries: nat, sleeps: nat, left: seq<int>, trace: seq<Action>)
    ensures sleeps == DownRun(isUp, budget)
    ensures queries == if sleeps < budget then sleeps + 1 else budget
    ensures left == Countdown(budget, sleeps)
    ensures trace == WaitTrace(verbose, budget, sleeps)
  {
    var timeout: int := budget;
    queries, sleeps, left, trace := 0, 0, [], [];
    while true
      invariant sleeps <= budget
      invariant timeout == budget - sleeps
      invariant queries == sleeps
      invariant forall j :: 0 <= j < sleeps ==> !isUp(j)
      invariant left == Countdown(budget, sleeps)
      invariant trace == WaitTrace(verbose, budget, sleeps)
      decreases timeout
    {
      var before := timeout;
      timeout := timeout - 1;
      if !(before > 0) {
        DownRunExact(isUp, budget, sleeps);
        break;
      }
      var up := isUp(queries);
      queries := queries + 1;
      if up {
        DownRunExact(isUp, budget, sleeps);
        break;
      }
      left := left + [timeout + 1];
      trace := trace + WaitStep(verbose, timeout + 1);
      sleeps := sleeps + 1;
    }
  }

  /** A step of the wait: a 1 s sleep, or a countdown log when the wait is verbose. */
  predicate WaitAction(verbose: bool, a: Action) {
    a == Sleep(PollMs) || (verbose && a.Log? && a.note.WaitingForPpp?)
  }

  /** The index of the query the check after the loop makes. */
  function FinalQuery(isUp: nat -> bool, budget: nat): nat {
    var k := DownRun(isUp, budget);
    if k < budget then k + 1 else budget
  }

  /** The countdown values seen by the first `n` passes through the body. */
  function Countdown(budget: int, n: nat): (s: seq<int>)
    ensures |s| == n
    ensures forall j :: 0 <= j < n ==> s[j] == budget - j
  {
    if n == 0 then [] else Countdown(budget, n - 1) + [budget - (n - 1)]
  }

  /** The steps of one pass through the body, which saw `left` on the countdown. */
  function WaitStep(verbose: bool, left: int): (t: seq<Action>)
    ensures SleptMs(t) == PollMs
    ensures WaitLogs(t) == if verbose then [left] else []
    ensures forall a :: a in t ==> WaitAction(verbose, a)
  {
    if verbose then
      assert WaitLogs([Sleep(PollMs)]) == [];
      Split([Log(WaitingForPpp(left))], [Sleep(PollMs)]);
      [Log(WaitingForPpp(left))] + [Sleep(PollMs)]
    else [Sleep(PollMs)]
  }

  /** The steps of the first `n` passes through the body. */
  function WaitTrace(verbose: bool, budget: int, n: nat): (t: seq<Action>)
    ensures SleptMs(t) == PollMs * n
    ensures WaitLogs(t) == if verbose then Countdown(budget, n) else []
    ensures forall a :: a in t ==> WaitAction(verbose, a)
  {
    if n == 0 then []
    else
      var prev, step := WaitTrace(verbose, budget, n - 1), WaitStep(verbose, budget - (n - 1));
      Split(prev, step);
      prev + step
  }

  /** `DownRun` is the only count with its three properties. */
  lemma DownRunExact(isUp: nat -> bool, n: nat, k: nat)
    requires k <= n
    requires forall j :: 0 <= j < k ==> !isUp(j)
    requires k < n ==> isUp(k)
    ensures DownRun(isUp, n) == k
  {
  }

  /** The link is down throughout: the whole budget of queries and sleeps is spent. */
  lemma NeverUp(isUp: nat -> bool, budget: nat)
    requires forall j :: 0 <= j < budget ==> !isUp(j)
    ensures DownRun(isUp, budget) == budget
  {
  }

  /** The k-th query (counting from 1) is the first "up": exactly k - 1 sleeps came before it. */
  lemma FirstUpAt(isUp: nat -> bool, budget: nat, k: nat)
    requires 1 <= k <= budget
    requires isUp(k - 1)
    requires forall j :: 0 <= j < k - 1 ==> !isUp(j)
    ensures DownRun(isUp, budget) == k - 1
  {
  }
}
