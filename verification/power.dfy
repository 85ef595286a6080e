/**
  The modem power sequence both programs run first: switch the LDO rail off
  and let it settle for 2 s, then switch it on and let it settle for 100 ms.
  Each half asks separately whether the rail device is ready and is skipped,
  sleep included, when it is not.
 */
module Power {
  import opened Trace

  const OffSettleMs := 2000
  const OnSettleMs := 100

  /** What the rail answers: readiness at each of the two checks, and the status `led_on` returns. */
  datatype Ldo = Ldo(readyAtOff: bool, readyAtOn: bool, onStatus: int)

  /** The log lines the power sequence writes. */
  predicate LdoNote(n: Note) {
    n.LdoNotReady? || n.LdoSwitchingOn? || n.LdoSwitchingOff? || n.LdoSwitchOnFailed?
  }

  /** `shutdown_modem_power`: silent and sleepless when the rail is not ready. */
  function ShutdownModemPower(ready: bool): (t: seq<Action>)
    ensures LdoOff in t <==> ready
    ensures LdoOn !in t
    ensures SleptMs(t) == if ready then OffSettleMs else 0
    ensures !ready ==> t == []
    ensures forall a :: a in t ==> a.LdoOff? || a.Sleep? || (a.Log? && LdoNote(a.note))
    ensures ready ==> t[|t| - 1] == Sleep(OffSettleMs)
  {
    if !ready then []
    else
      var t := [Log(LdoSwitchingOff), LdoOff] + [Sleep(OffSettleMs)];
      Split([Log(LdoSwitchingOff), LdoOff], [Sleep(OffSettleMs)]);
      NoSleep([Log(LdoSwitchingOff), LdoOff]);
      t
  }

  /**
    `setup_modem_power`: logs and gives up without sleeping when the rail is not
    ready; otherwise switches on, logs a failed switch-on, and settles whatever
    the switch-on returned.
   */
  function SetupModemPower(ready: bool, status: int): (t: seq<Action>)
    ensures LdoOn in t <==> ready
    ensures LdoOff !in t
    ensures SleptMs(t) == if ready then OnSettleMs else 0
    ensures !ready ==> t == [Log(LdoNotReady)]
    ensures forall a :: a in t ==> a.LdoOn? || a.Sleep? || (a.Log? && LdoNote(a.note))
    ensures Log(LdoSwitchOnFailed) in t <==> ready && status < 0
    ensures ready ==> t[|t| - 1] == Sleep(OnSettleMs)
  {
    if !ready then [Log(LdoNotReady)]
    else
      var switched := [Log(LdoSwitchingOn), LdoOn] + (if status < 0 then [Log(LdoSwitchOnFailed)] else []);
      Split(switched, [Sleep(OnSettleMs)]);
      NoSleep(switched);
      switched + [Sleep(OnSettleMs)]
  }

  /** The two halves as `main` calls them: off first, then on. */
  function PowerCycle(ldo: Ldo): (t: seq<Action>)
    ensures LdoOff in t <==> ldo.readyAtOff
    ensures forall a :: a in t ==> a.LdoOff? || a.LdoOn? || a.Sleep? || (a.Log? && LdoNote(a.note))
    ensures LdoOn in t <==> ldo.readyAtOn
    ensures SleptMs(t) == (if ldo.readyAtOff then OffSettleMs else 0) + (if ldo.readyAtOn then OnSettleMs else 0)
    ensures Log(LdoSwitchOnFailed) in t <==> ldo.readyAtOn && ldo.onStatus < 0
  {
    var off, on := ShutdownModemPower(ldo.readyAtOff), SetupModemPower(ldo.readyAtOn, ldo.onStatus);
    Split(off, on);
    off + on
  }

  /** Every switch-off comes before every switch-on. */
  lemma OffBeforeOn(ldo: Ldo)
    ensures forall i, j ::
      0 <= i < |PowerCycle(ldo)| && 0 <= j < |PowerCycle(ldo)| && PowerCycle(ldo)[i] == LdoOff && PowerCycle(ldo)[j] == LdoOn
      ==> i < j
  {
    var off, on := ShutdownModemPower(ldo.readyAtOff), SetupModemPower(ldo.readyAtOn, ldo.onStatus);
    assert PowerCycle(ldo) == off + on;
    assert forall k :: 0 <= k < |off| ==> (off + on)[k] in off;
    assert forall k :: |off| <= k < |off + on| ==> (off + on)[k] in on;
  }
}
