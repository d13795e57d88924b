/** The background monitoring service (Services/URLMonitorBackgroundService.cs): it runs
    the status-only check of every active monitor, then waits for the shortest check
    interval among the active monitors, until the host cancels it. */
module BackgroundService {
  import opened Common
  import opened UrlModels
  import opened MonitoringApi

  /** The wait used when no interval can be derived from the monitors. */
  const DefaultIntervalMinutes: int := 5

  /** What reading the monitors yields: the list, or an exception. */
  datatype MonitorLoad = Loaded(monitors: seq<MonitorRecord>) | LoadFailed

  /** The smallest check interval of a list of monitors, if the list is not empty. */
  function MinInterval(ms: seq<MonitorRecord>): (r: Option<int>)
    ensures r.None? <==> |ms| == 0
    ensures r.Some? ==> exists m :: m in ms && m.checkIntervalMinutes == r.value
    ensures r.Some? ==> forall m :: m in ms ==> r.value <= m.checkIntervalMinutes
    decreases |ms|
  {
    if |ms| == 0 then None
    else
      var init := ms[..|ms| - 1];
      var last := ms[|ms| - 1];
      assert ms == init + [last];
      var rest := MinInterval(init);
      if rest.None? || last.checkIntervalMinutes <= rest.value then Some(last.checkIntervalMinutes)
      else rest
  }

  /** The query's minimum: the active monitors, then the smallest of their intervals. */
  function ActiveMinInterval(rs: seq<MonitorRecord>): Option<int>
  {
    MinInterval(Filter(rs, IsActive))
  }

  /** CalculateNextCheckDelay, in minutes: the default when the monitors cannot be read
      or none is active, else the smallest active interval, raised to at least 1. */
  function NextCheckDelayMinutes(load: MonitorLoad): (d: int)
    ensures d >= 1
    ensures load.LoadFailed? ==> d == DefaultIntervalMinutes
    ensures load.Loaded? && Count(load.monitors, IsActive) == 0 ==> d == DefaultIntervalMinutes
  {
    match load
    case LoadFailed => DefaultIntervalMinutes
    case Loaded(rs) =>
      if |rs| == 0 || Count(rs, IsActive) == 0 then DefaultIntervalMinutes
      else
        var least := ActiveMinInterval(rs).value;
        if least > 1 then least else 1
  }

  /** With an active monitor the delay is the larger of 1 and the smallest active
      interval: no active monitor waits longer than its own interval (or 1 minute),
      and some active monitor's interval is met exactly unless it is below 1. */
  lemma DelayIsShortestInterval(rs: seq<MonitorRecord>)
    requires Count(rs, IsActive) > 0
    ensures var d := NextCheckDelayMinutes(Loaded(rs));
      (forall m :: m in rs && m.isActive ==> d <= m.checkIntervalMinutes || d == 1)
      && (exists m :: m in rs && m.isActive && (d == m.checkIntervalMinutes || (d == 1 && m.checkIntervalMinutes < 1)))
  {
    var active := Filter(rs, IsActive);
    var least := MinInterval(active).value;
    forall m | m in rs && m.isActive
      ensures least <= m.checkIntervalMinutes
    {
      FilterKeeps(rs, IsActive, m);
    }
    var w :| w in active && w.checkIntervalMinutes == least;
  }

  /** An inactive monitor never changes the delay, wherever it stands in the list. */
  lemma InactiveIgnored(front: seq<MonitorRecord>, m: MonitorRecord, back: seq<MonitorRecord>)
    requires !m.isActive
    ensures NextCheckDelayMinutes(Loaded(front + [m] + back)) == NextCheckDelayMinutes(Loaded(front + back))
  {
    var whole := front + [m] + back;
    var rest := front + back;
    assert Filter(whole, IsActive) == Filter(rest, IsActive) by {
      FilterAppend(front + [m], back, IsActive);
      FilterAppend(front, [m], IsActive);
      FilterAppend(front, back, IsActive);
      assert Filter([m], IsActive) == [];
    }
    assert Count(whole, IsActive) == Count(rest, IsActive);
    assert |whole| == 0 <==> false;
  }

  // ---------------------------------------------------------------------------
  // The service loop

  /** The longest wait `Task.Delay` accepts, UInt32.MaxValue - 1 milliseconds (.NET 6 and
      later); a longer TimeSpan makes it throw ArgumentOutOfRangeException. */
  const MaxDelayMs: int := 4294967294

  /** The longest delay in whole minutes that `Task.Delay` still accepts. */
  const LongestDelayMinutes: int := 71582

  /** The delay computed from this load is more than `Task.Delay` accepts. */
  predicate DelayTooLong(load: MonitorLoad)
  {
    NextCheckDelayMinutes(load) * MinuteMs > MaxDelayMs
  }

  /** An over-long delay is one of 71583 minutes or more, which an active monitor's
      interval alone can bring about. */
  lemma TooLongBound(load: MonitorLoad)
    ensures DelayTooLong(load) <==> NextCheckDelayMinutes(load) > LongestDelayMinutes
    ensures load.LoadFailed? ==> !DelayTooLong(load)
  {
    var d := NextCheckDelayMinutes(load);
    assert MinuteMs == 60000;
    if d > LongestDelayMinutes {
      assert d * 60000 >= (LongestDelayMinutes + 1) * 60000 > MaxDelayMs;
    } else {
      assert d * 60000 <= LongestDelayMinutes * 60000 <= MaxDelayMs;
    }
  }

  /** What one round of the loop meets: whether cancellation was already requested at
      the loop head, whether the check cycle threw, what reading the monitors for the
      delay yields, and whether cancellation arrived during the wait. */
  datatype Round = Round(cancelledBefore: bool, cycleFails: bool, load: MonitorLoad, cancelledInWait: bool)

  /** How many check cycles run: a round cancelled at the loop head runs none and ends
      the loop; otherwise the cycle runs, and the loop ends after it when the delay is
      too long for `Task.Delay` (the exception is not caught) or the wait is cancelled. */
  function CyclesRun(rounds: seq<Round>): (n: nat)
    ensures n <= |rounds|
    decreases |rounds|
  {
    if |rounds| == 0 || rounds[0].cancelledBefore then 0
    else if DelayTooLong(rounds[0].load) || rounds[0].cancelledInWait then 1
    else 1 + CyclesRun(rounds[1..])
  }

  /** The waits completed in full, in order. */
  function Waits(rounds: seq<Round>): seq<int>
    decreases |rounds|
  {
    if |rounds| == 0 || rounds[0].cancelledBefore || DelayTooLong(rounds[0].load) || rounds[0].cancelledInWait then []
    else [NextCheckDelayMinutes(rounds[0].load)] + Waits(rounds[1..])
  }

  /** Whether the loop ends by the ArgumentOutOfRangeException of `Task.Delay`, which
      faults ExecuteAsync instead of stopping it quietly. */
  function Faults(rounds: seq<Round>): bool
    decreases |rounds|
  {
    if |rounds| == 0 || rounds[0].cancelledBefore then false
    else if DelayTooLong(rounds[0].load) then true
    else if rounds[0].cancelledInWait then false
    else Faults(rounds[1..])
  }

  predicate NoCancellation(r: Round)
  {
    !r.cancelledBefore && !r.cancelledInWait
  }

  /** A round the loop passes through: no cancellation, and a delay `Task.Delay` accepts. */
  predicate Continues(r: Round)
  {
    NoCancellation(r) && !DelayTooLong(r.load)
  }

  /** A failing cycle never ends the loop: only cancellation or an over-long delay does.
      Every round runs iff every earlier one continues and the last is not cancelled at
      the loop head; without cancellation and over-long delays every round completes its
      wait, of at least a minute and at most what `Task.Delay` accepts. */
  lemma WhatStopsTheLoop(rounds: seq<Round>)
    ensures CyclesRun(rounds) == |rounds| <==>
      (forall i :: 0 <= i < |rounds| - 1 ==> Continues(rounds[i]))
      && (|rounds| == 0 || !rounds[|rounds| - 1].cancelledBefore)
    ensures (forall i :: 0 <= i < |rounds| ==> Continues(rounds[i])) ==> |Waits(rounds)| == |rounds| && !Faults(rounds)
    ensures forall k :: 0 <= k < |Waits(rounds)| ==> 1 <= Waits(rounds)[k] <= LongestDelayMinutes
  {
    AllRoundsRun(rounds);
    UninterruptedRounds(rounds);
    WaitBounds(rounds);
  }

  lemma {:induction false} AllRoundsRun(rounds: seq<Round>)
    ensures CyclesRun(rounds) == |rounds| <==>
      (forall i :: 0 <= i < |rounds| - 1 ==> Continues(rounds[i]))
      && (|rounds| == 0 || !rounds[|rounds| - 1].cancelledBefore)
    decreases |rounds|
  {
    if |rounds| > 0 {
      var rest := rounds[1..];
      AllRoundsRun(rest);
      assert forall i :: 1 <= i < |rounds| ==> rounds[i] == rest[i - 1];
    }
  }

  lemma {:induction false} UninterruptedRounds(rounds: seq<Round>)
    ensures (forall i :: 0 <= i < |rounds| ==> Continues(rounds[i])) ==> |Waits(rounds)| == |rounds| && !Faults(rounds)
    decreases |rounds|
  {
    if |rounds| > 0 {
      var rest := rounds[1..];
      UninterruptedRounds(rest);
      assert forall i :: 0 <= i < |rest| ==> rest[i] == rounds[i + 1];
    }
  }

  lemma {:induction false} WaitBounds(rounds: seq<Round>)
    ensures forall k :: 0 <= k < |Waits(rounds)| ==> 1 <= Waits(rounds)[k] <= LongestDelayMinutes
    decreases |rounds|
  {
    if |rounds| > 0 && !rounds[0].cancelledBefore && !DelayTooLong(rounds[0].load) && !rounds[0].cancelledInWait {
      WaitBounds(rounds[1..]);
      TooLongBound(rounds[0].load);
    }
  }

  /** How the loop ends: every cycle that ran was followed by a full wait, except the
      last one when the loop ended after it; and a fault comes from the last cycle's
      delay being too long. */
  lemma {:induction false} LoopEnding(rounds: seq<Round>)
    ensures |Waits(rounds)| <= CyclesRun(rounds) <= |Waits(rounds)| + 1
    ensures CyclesRun(rounds) == |Waits(rounds)| + 1 ==>
      !Continues(rounds[CyclesRun(rounds) - 1])
    ensures Faults(rounds) <==> CyclesRun(rounds) == |Waits(rounds)| + 1 && DelayTooLong(rounds[CyclesRun(rounds) - 1].load)
    decreases |rounds|
  {
    if |rounds| > 0 && !rounds[0].cancelledBefore && !DelayTooLong(rounds[0].load) && !rounds[0].cancelledInWait {
      var rest := rounds[1..];
      LoopEnding(rest);
      if CyclesRun(rest) > 0 {
        assert rest[CyclesRun(rest) - 1] == rounds[CyclesRun(rounds) - 1];
      }
    }
  }

  /** When every active monitor's interval is more than `Task.Delay` accepts, the first
      cycle runs, the delay throws, and the loop faults without waiting. */
  lemma OverlongIntervalsFault(rounds: seq<Round>, rs: seq<MonitorRecord>)
    requires |rounds| > 0 && !rounds[0].cancelledBefore && rounds[0].load == Loaded(rs)
    requires Count(rs, IsActive) > 0
    requires forall m :: m in rs && m.isActive ==> m.checkIntervalMinutes > LongestDelayMinutes
    ensures CyclesRun(rounds) == 1 && Waits(rounds) == [] && Faults(rounds)
  {
    DelayIsShortestInterval(rs);
    TooLongBound(Loaded(rs));
  }

  /** Whether cycles throw changes nothing about how long the loop runs, what it waits
      or how it ends. */
  lemma {:induction false} FailuresIrrelevant(rounds: seq<Round>, fails: seq<bool>)
    requires |fails| == |rounds|
    ensures var other := seq(|rounds|, i requires 0 <= i < |rounds| => rounds[i].(cycleFails := fails[i]));
      CyclesRun(other) == CyclesRun(rounds) && Waits(other) == Waits(rounds) && Faults(other) == Faults(rounds)
    decreases |rounds|
  {
    if |rounds| > 0 {
      var other := seq(|rounds|, i requires 0 <= i < |rounds| => rounds[i].(cycleFails := fails[i]));
      FailuresIrrelevant(rounds[1..], fails[1..]);
      var tail := seq(|rounds| - 1, i requires 0 <= i < |rounds| - 1 => rounds[1..][i].(cycleFails := fails[1..][i]));
      assert other[1..] == tail;
    }
  }

  /** ExecuteAsync: round after round, run the cycle (its exception is logged and
      swallowed), compute the delay, wait; stop at cancellation, or fault when
      `Task.Delay` refuses the delay. */
  method Execute(rounds: seq<Round>) returns (cycles: nat, waits: seq<int>, faulted: bool)
    ensures cycles == CyclesRun(rounds) && waits == Waits(rounds) && faulted == Faults(rounds)
  {
    cycles, waits, faulted := 0, [], false;
    var i := 0;
    var stopped := false;
    while i < |rounds| && !stopped
      invariant 0 <= i <= |rounds|
      invariant !stopped ==> !faulted && cycles + CyclesRun(rounds[i..]) == CyclesRun(rounds)
                             && waits + Waits(rounds[i..]) == Waits(rounds) && Faults(rounds[i..]) == Faults(rounds)
      invariant stopped ==> cycles == CyclesRun(rounds) && waits == Waits(rounds) && faulted == Faults(rounds)
      decreases |rounds| - i + (if stopped then 0 else 1)
    {
      var round := rounds[i];
      assert rounds[i..][1..] == rounds[i + 1..];
      if round.cancelledBefore {
        stopped := true;
      } else {
        // the cycle runs whether or not it throws
        cycles := cycles + 1;
        var delay := NextCheckDelayMinutes(round.load);
        if delay * MinuteMs > MaxDelayMs {
          // Task.Delay throws ArgumentOutOfRangeException, which is not caught
          faulted := true;
          stopped := true;
        } else if round.cancelledInWait {
          stopped := true;
        } else {
          waits := waits + [delay];
          i := i + 1;
        }
      }
    }
  }
}
