/** The status-only check of the URL monitoring service
    (Services/URLMonitoringService.cs): one HTTP GET decides the status, with no
    counters, no percentage and no certificate step. */
module UrlService {
  import opened Common
  import opened UrlModels
  import opened MonitoringApi

  /** The message recorded when the GET is cancelled by the client's timeout. */
  const TimedOutMessage: string := "Request timed out"

  /** The state CheckUrlAsync leaves for one HTTP answer: a response records its code
      and time and yields Up or Down, a cancellation yields Timeout, any other failure
      yields Error with its message; every outcome is stamped with `now`. */
  function StatusCheck(m: MonitorRecord, a: HttpAnswer, now: Time): (r: MonitorRecord)
    ensures r.lastChecked == Some(now) && r.updatedAt == now
    ensures SameConfiguration(m, r)
  {
    var judged :=
      match a
      case Response(code, elapsedMs) =>
        m.(lastResponseCode := Some(code), lastResponseTimeMs := Some(elapsedMs),
           status := if IsSuccessStatusCode(code) then Up else Down, lastError := "")
      case TimedOut(_) => m.(status := Timeout, lastError := TimedOutMessage)
      case Failed(message) => m.(status := Error, lastError := message);
    judged.(lastChecked := Some(now), updatedAt := now)
  }

  /** The outcome of a status check, case by case, in both directions. */
  lemma StatusCheckOutcome(m: MonitorRecord, a: HttpAnswer, now: Time)
    ensures var r := StatusCheck(m, a, now);
      (r.status == Up <==> a.Response? && IsSuccessStatusCode(a.code))
      && (r.status == Down <==> a.Response? && !IsSuccessStatusCode(a.code))
      && (r.status == Timeout <==> a.TimedOut?)
      && (r.status == Error <==> a.Failed?)
      && r.status != UrlStatus.Unknown
      && r.lastError == (match a case Response(_, _) => "" case TimedOut(_) => TimedOutMessage case Failed(msg) => msg)
      && (a.Response? ==> r.lastResponseCode == Some(a.code) && r.lastResponseTimeMs == Some(a.elapsedMs))
  {
  }

  /** A status check leaves the statistics alone: the counters, the percentage, the
      up/down instants and the certificate are untouched, and after a timeout or an
      error the previous response code and time are kept. The client's timeout
      setting plays no part in the outcome. */
  lemma StatusCheckKeepsStatistics(m: MonitorRecord, a: HttpAnswer, now: Time)
    ensures var r := StatusCheck(m, a, now);
      r.totalChecks == m.totalChecks && r.successfulChecks == m.successfulChecks
      && r.consecutiveFailures == m.consecutiveFailures && r.uptimePercentage == m.uptimePercentage
      && r.lastUptime == m.lastUptime && r.lastDowntime == m.lastDowntime
      && r.certificate == m.certificate
      && (!a.Response? ==> r.lastResponseCode == m.lastResponseCode && r.lastResponseTimeMs == m.lastResponseTimeMs)
    ensures forall t :: StatusCheck(m.(timeoutSeconds := t), a, now) == StatusCheck(m, a, now).(timeoutSeconds := t)
  {
  }

  /** Because nothing is counted, a status check keeps the monitor invariant. */
  lemma StatusCheckKeepsValid(m: MonitorRecord, a: HttpAnswer, now: Time)
    requires Consistent(m)
    ensures Consistent(StatusCheck(m, a, now))
    ensures ReliabilityScore(StatusCheck(m, a, now)) == ReliabilityScore(m)
  {
  }

  /** Repeating a status check with the same answer at the same instant changes nothing
      more: the check is idempotent, unlike the full check, which counts every call. */
  lemma StatusCheckIdempotent(m: MonitorRecord, a: HttpAnswer, p: Probe, now: Time)
    ensures StatusCheck(StatusCheck(m, a, now), a, now) == StatusCheck(m, a, now)
    ensures FullCheck(FullCheck(m, p, now), p, now) != FullCheck(m, p, now)
  {
  }

  /** The two check variants disagree on a timeout: Timeout here, Error in the full check. */
  lemma TimeoutDiffersFromFullCheck(m: MonitorRecord, message: string, t: TlsAnswer, now: Time)
    ensures StatusCheck(m, TimedOut(message), now).status == Timeout
    ensures FullCheck(m, Probe(TimedOut(message), t), now).status == Error
  {
  }

  // ---------------------------------------------------------------------------
  // The monitor object

  /** CheckUrlAsync on the monitor object itself. */
  method CheckUrl(m: UrlMonitor, a: HttpAnswer, now: Time)
    modifies m
    ensures m.Snapshot() == StatusCheck(old(m.Snapshot()), a, now)
  {
    match a {
      case Response(code, elapsedMs) =>
        RecordResponse(m, code, elapsedMs);
        SetOutcome(m, if IsSuccessStatusCode(code) then Up else Down, "");
      case TimedOut(_) =>
        SetOutcome(m, Timeout, TimedOutMessage);
      case Failed(message) =>
        SetOutcome(m, Error, message);
    }
    Stamp(m, now);
  }

  method SetOutcome(m: UrlMonitor, status: UrlStatus, error: string)
    modifies m
    ensures m.Snapshot() == old(m.Snapshot()).(status := status, lastError := error)
  {
    m.status := status;
    m.lastError := error;
  }

  method Stamp(m: UrlMonitor, now: Time)
    modifies m
    ensures m.Snapshot() == old(m.Snapshot()).(lastChecked := Some(now), updatedAt := now)
  {
    m.lastChecked := Some(now);
    m.updatedAt := now;
  }

  // ---------------------------------------------------------------------------
  // Checking every active monitor

  /** One monitor of the pass: checked with its answer when it is active, else left alone. */
  function CheckedIfActive(m: MonitorRecord, a: HttpAnswer, now: Time): MonitorRecord
  {
    if m.isActive then StatusCheck(m, a, now) else m
  }

  /** The effect of CheckAllActiveUrlsAsync on the table: the active monitors are checked,
      the one at position i with answer i, and the others are left as they were. */
  function StatusPass(rs: seq<MonitorRecord>, answers: nat -> HttpAnswer, now: Time): seq<MonitorRecord>
    decreases |rs|
  {
    if |rs| == 0 then [] else StatusPass(rs[..|rs| - 1], answers, now) + [CheckedIfActive(rs[|rs| - 1], answers(|rs| - 1), now)]
  }

  /** The pass visits every position once: exactly the active monitors are checked, and
      each inactive one is left unchanged. */
  lemma {:induction false} StatusPassShape(rs: seq<MonitorRecord>, answers: nat -> HttpAnswer, now: Time)
    ensures |StatusPass(rs, answers, now)| == |rs|
    ensures forall i :: 0 <= i < |rs| ==> StatusPass(rs, answers, now)[i] == CheckedIfActive(rs[i], answers(i), now)
    decreases |rs|
  {
    if |rs| > 0 {
      var init := rs[..|rs| - 1];
      StatusPassShape(init, answers, now);
    }
  }

  /** The pass checks as many monitors as are active, and every checked monitor is
      stamped with `now`. */
  lemma StatusPassCounts(rs: seq<MonitorRecord>, answers: nat -> HttpAnswer, now: Time)
    ensures |StatusPass(rs, answers, now)| == |rs|
    ensures Count(StatusPass(rs, answers, now), IsActive) == Count(rs, IsActive)
    ensures forall i :: 0 <= i < |rs| && rs[i].isActive ==> StatusPass(rs, answers, now)[i].lastChecked == Some(now)
  {
    StatusPassShape(rs, answers, now);
    ActivityKept(rs, StatusPass(rs, answers, now));
  }

  /** Two tables whose monitors agree position by position on being active have as many
      active monitors. */
  lemma {:induction false} ActivityKept(rs: seq<MonitorRecord>, ss: seq<MonitorRecord>)
    requires |rs| == |ss|
    requires forall i :: 0 <= i < |rs| ==> ss[i].isActive == rs[i].isActive
    ensures Count(ss, IsActive) == Count(rs, IsActive)
    decreases |rs|
  {
    if |rs| > 0 {
      ActivityKept(rs[..|rs| - 1], ss[..|ss| - 1]);
      assert rs == rs[..|rs| - 1] + [rs[|rs| - 1]];
      assert ss == ss[..|ss| - 1] + [ss[|ss| - 1]];
      CountAppend(rs[..|rs| - 1], [rs[|rs| - 1]], IsActive);
      CountAppend(ss[..|ss| - 1], [ss[|ss| - 1]], IsActive);
    }
  }

  /** After a pass every monitor still satisfies the monitor invariant. */
  lemma StatusPassKeepsValid(rs: seq<MonitorRecord>, answers: nat -> HttpAnswer, now: Time)
    requires forall i :: 0 <= i < |rs| ==> Consistent(rs[i])
    ensures forall i :: 0 <= i < |StatusPass(rs, answers, now)| ==> Consistent(StatusPass(rs, answers, now)[i])
  {
    StatusPassShape(rs, answers, now);
    forall i | 0 <= i < |rs|
      ensures Consistent(StatusPass(rs, answers, now)[i])
    {
      if rs[i].isActive {
        StatusCheckKeepsValid(rs[i], answers(i), now);
      }
    }
  }

  /** CheckAllActiveUrlsAsync over the monitor objects of the table. */
  method CheckAllActiveUrls(table: seq<UrlMonitor>, answers: nat -> HttpAnswer, now: Time)
    requires Distinct(table)
    modifies set m | m in table
    ensures Snapshots(table) == StatusPass(old(Snapshots(table)), answers, now)
  {
    ghost var before := Snapshots(table);
    SnapshotsEach(table);
    StatusPassShape(before, answers, now);
    var i := 0;
    while i < |table|
      invariant 0 <= i <= |table|
      invariant forall j :: 0 <= j < |table| ==>
        table[j].Snapshot() == if j < i then CheckedIfActive(before[j], answers(j), now) else before[j]
    {
      assert forall j :: 0 <= j < |table| && j != i ==> table[j] != table[i];
      if table[i].isActive {
        CheckUrl(table[i], answers(i), now);
      }
      i := i + 1;
    }
    SnapshotsOfEach(table, StatusPass(before, answers, now));
  }
}
